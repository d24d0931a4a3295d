/** Small vocabulary shared by the other modules: optional values and the character
    classes of the C locale. */
module Text {

  datatype Option<+T> = None | Some(value: T)

  /** Counts one when the condition holds. */
  function One(b: bool): nat {
    if b then 1 else 0
  }

  /** V_isspace: the six white-space characters of the C locale. */
  predicate IsSpace(c: char) {
    c == ' ' || 9 as char <= c <= 13 as char
  }

  predicate IsDigit(c: char) {
    '0' <= c <= '9'
  }

  predicate IsUpper(c: char) {
    'A' <= c <= 'Z'
  }

  predicate IsAlnum(c: char) {
    IsDigit(c) || IsUpper(c) || 'a' <= c <= 'z'
  }

  function ToLower(c: char): char {
    if IsUpper(c) then (c as int + 32) as char else c
  }

  function Lower(s: string): string {
    seq(|s|, i requires 0 <= i < |s| => ToLower(s[i]))
  }

  function SkipSpaces(s: string): string {
    if s != [] && IsSpace(s[0]) then SkipSpaces(s[1..]) else s
  }

  function DropTrailingSpaces(s: string): string {
    if s != [] && IsSpace(s[|s| - 1]) then DropTrailingSpaces(s[..|s| - 1]) else s
  }

  function Trim(s: string): string {
    DropTrailingSpaces(SkipSpaces(s))
  }

  /** c_str(), and a std::string made from one: the text up to the first NUL. */
  function CString(s: string): string {
    if s == [] || s[0] == '\0' then [] else [s[0]] + CString(s[1..])
  }

  // ---------- what these mean ----------

  lemma {:induction false} CStringMeans(s: string)
    ensures CString(s) <= s && '\0' !in CString(s)
    ensures |CString(s)| < |s| ==> s[|CString(s)|] == '\0'
    ensures CString(s) == s <==> '\0' !in s
  {
    if s != [] && s[0] != '\0' {
      CStringMeans(s[1..]);
      assert s == [s[0]] + s[1..];
    }
  }

  const DIGITS := "0123456789"
  const UPPER := "ABCDEFGHIJKLMNOPQRSTUVWXYZ"
  const LOWER := "abcdefghijklmnopqrstuvwxyz"

  /** Space, tab, line feed, vertical tab, form feed and carriage return. */
  lemma SpacesListed(c: char)
    ensures IsSpace(c) <==> c in " \t\n\U{b}\U{c}\r"
  {
    var listed := " \t\n\U{b}\U{c}\r";
    assert listed[0] == ' ' && listed[1] == '\t' && listed[2] == '\n' && listed[3] == 11 as char
           && listed[4] == 12 as char && listed[5] == '\r';
  }

  lemma DigitsListed(c: char)
    ensures IsDigit(c) <==> c in DIGITS
  {
    assert forall k :: 0 <= k < 10 ==> DIGITS[k] == ('0' as int + k) as char;
    if IsDigit(c) {
      assert DIGITS[c as int - '0' as int] == c;
    }
  }

  lemma UpperListed(c: char)
    ensures IsUpper(c) <==> c in UPPER
  {
    assert forall k :: 0 <= k < 26 ==> UPPER[k] == ('A' as int + k) as char;
    if IsUpper(c) {
      assert UPPER[c as int - 'A' as int] == c;
    }
  }

  lemma LowerListed(c: char)
    ensures 'a' <= c <= 'z' <==> c in LOWER
  {
    assert forall k :: 0 <= k < 26 ==> LOWER[k] == ('a' as int + k) as char;
    if 'a' <= c <= 'z' {
      assert LOWER[c as int - 'a' as int] == c;
    }
  }

  lemma LettersListed(c: char)
    ensures IsAlnum(c) <==> c in DIGITS || c in UPPER || c in LOWER
  {
    DigitsListed(c);
    UpperListed(c);
    LowerListed(c);
  }

  /** Upper-case letters become the lower-case letter at the same place of the alphabet, and nothing else
      changes. */
  lemma ToLowerListed(c: char, k: nat)
    ensures k < 26 && c == UPPER[k] ==> ToLower(c) == LOWER[k]
    ensures c !in UPPER ==> ToLower(c) == c
  {
    UpperListed(c);
    if k < 26 {
      assert UPPER[k] == ('A' as int + k) as char && LOWER[k] == ('a' as int + k) as char;
    }
  }

  predicate AllSpaces(s: string) {
    forall i :: 0 <= i < |s| ==> IsSpace(s[i])
  }

  lemma {:induction false} SkipMeans(s: string) returns (front: string)
    ensures AllSpaces(front) && s == front + SkipSpaces(s)
    ensures SkipSpaces(s) != [] ==> !IsSpace(SkipSpaces(s)[0])
  {
    front := [];
    if s != [] && IsSpace(s[0]) {
      var rest := SkipMeans(s[1..]);
      front := [s[0]] + rest;
      assert s == [s[0]] + s[1..];
    }
  }

  lemma {:induction false} DropMeans(s: string) returns (back: string)
    ensures AllSpaces(back) && s == DropTrailingSpaces(s) + back
    ensures var r := DropTrailingSpaces(s); r != [] ==> !IsSpace(r[|r| - 1]) && r[0] == s[0]
  {
    back := [];
    if s != [] && IsSpace(s[|s| - 1]) {
      var rest := DropMeans(s[..|s| - 1]);
      back := rest + [s[|s| - 1]];
      assert s == s[..|s| - 1] + [s[|s| - 1]];
    }
  }

  /** Main result: trimming takes away white space at both ends, all of it, and nothing else. */
  lemma TrimMeans(s: string) returns (front: string, back: string)
    ensures AllSpaces(front) && AllSpaces(back) && s == front + Trim(s) + back
    ensures Trim(s) != [] ==> !IsSpace(Trim(s)[0]) && !IsSpace(Trim(s)[|Trim(s)| - 1])
  {
    front := SkipMeans(s);
    back := DropMeans(SkipSpaces(s));
  }
}
