/** Error fingerprints: the lower-cased alphanumeric runs of a message joined by single dashes. */
module Fingerprint {
  import opened Text
  import Words

  const UNKNOWN := "unknown-error"

  predicate NotAlnum(c: char) {
    !IsAlnum(c)
  }

  /** The lower-cased maximal alphanumeric runs. */
  function Runs(s: string): seq<string> {
    Words.Split(Lower(s), NotAlnum)
  }

  function Join(words: seq<string>): string {
    if words == [] then []
    else if |words| == 1 then words[0]
    else words[0] + "-" + Join(words[1..])
  }

  function Of(s: string): string {
    if Runs(s) == [] then UNKNOWN else Join(Runs(s))
  }

  // ---------- joining and cutting undo each other ----------

  lemma {:induction false} JoinThenSplit(words: seq<string>)
    requires forall i :: 0 <= i < |words| ==> Words.IsWord(words[i], NotAlnum)
    ensures Words.Split(Join(words), NotAlnum) == words
  {
    if |words| == 1 {
      Words.SplitWord(words[0], NotAlnum);
    } else if |words| > 1 {
      JoinThenSplit(words[1..]);
      Words.SplitWord(words[0], NotAlnum);
      Words.SplitGap("-", NotAlnum);
      Words.SplitAppend(words[0], "-", NotAlnum);
      Words.SplitAppend(words[0] + "-", Join(words[1..]), NotAlnum);
    }
  }

  predicate LowerAlnum(c: char) {
    IsAlnum(c) && !IsUpper(c)
  }

  predicate IsLowerWord(w: string) {
    w != [] && forall i :: 0 <= i < |w| ==> LowerAlnum(w[i])
  }

  /** Dashes stand only between alphanumeric characters, and nothing else occurs. */
  predicate Canonical(f: string) {
    && f != [] && f[0] != '-' && f[|f| - 1] != '-'
    && (forall i :: 0 <= i < |f| ==> f[i] == '-' || LowerAlnum(f[i]))
    && (forall i :: 0 <= i < |f| - 1 ==> f[i] != '-' || f[i + 1] != '-')
  }

  lemma {:induction false} JoinIsCanonical(words: seq<string>)
    requires words != [] && forall i :: 0 <= i < |words| ==> IsLowerWord(words[i])
    ensures Canonical(Join(words))
  {
    if |words| > 1 {
      var w, r := words[0], Join(words[1..]);
      JoinIsCanonical(words[1..]);
      forall i | 0 <= i < |w + "-" + r|
        ensures (w + "-" + r)[i] == if i < |w| then w[i] else if i == |w| then '-' else r[i - |w| - 1]
      {
      }
    }
  }

  lemma {:induction false} SplitKeepsCharacters(s: string, k: nat)
    requires k < |Words.Split(s, NotAlnum)|
    requires forall i :: 0 <= i < |s| ==> !IsUpper(s[i])
    ensures IsLowerWord(Words.Split(s, NotAlnum)[k])
    decreases |s|
  {
    if NotAlnum(s[0]) {
      SplitKeepsCharacters(s[1..], k);
    } else if k > 0 {
      SplitKeepsCharacters(s[Words.WordLength(s, NotAlnum)..], k - 1);
    }
  }

  lemma RunsAreLowerWords(s: string)
    ensures forall k :: 0 <= k < |Runs(s)| ==> IsLowerWord(Runs(s)[k])
  {
    forall k | 0 <= k < |Runs(s)| ensures IsLowerWord(Runs(s)[k]) {
      SplitKeepsCharacters(Lower(s), k);
    }
  }

  /** Main result: no leading, trailing or doubled dash, and no upper-case letter. */
  lemma OfIsCanonical(s: string)
    ensures Canonical(Of(s))
  {
    RunsAreLowerWords(s);
    if Runs(s) != [] {
      JoinIsCanonical(Runs(s));
    }
  }

  /** Main result: canonicalising twice changes nothing, so a fingerprint is its own fingerprint. */
  lemma OfIsIdempotent(s: string)
    ensures Of(Of(s)) == Of(s)
  {
    OfIsCanonical(s);
    assert Lower(Of(s)) == Of(s);
    if Runs(s) == [] {
      JoinThenSplit(["unknown", "error"]);
      assert Join(["unknown", "error"]) == UNKNOWN by {
        assert ["unknown", "error"][1..] == ["error"];
      }
    } else {
      JoinThenSplit(Runs(s));
    }
  }

  /** Main result: the fingerprint does not depend on the case of any letter. */
  lemma OfIgnoresCase(s: string)
    ensures Of(Lower(s)) == Of(s)
  {
    assert Lower(Lower(s)) == Lower(s);
  }

  function WithFallback(s: string): seq<string> {
    if Runs(s) == [] then ["unknown", "error"] else Runs(s)
  }

  lemma OfJoinsAndSplits(s: string)
    ensures Of(s) == Join(WithFallback(s)) && Words.Split(Of(s), NotAlnum) == WithFallback(s)
  {
    if Runs(s) == [] {
      JoinThenSplit(["unknown", "error"]);
      assert ["unknown", "error"][1..] == ["error"];
    } else {
      JoinThenSplit(Runs(s));
    }
  }

  /** Main result: two messages share a fingerprint exactly when they have the same lower-cased runs,
      apart from messages whose runs spell the fallback. */
  lemma SameFingerprint(a: string, b: string)
    ensures Of(a) == Of(b) <==> WithFallback(a) == WithFallback(b)
  {
    OfJoinsAndSplits(a);
    OfJoinsAndSplits(b);
  }

  // ---------- how the runs grow character by character ----------

  lemma RunsOfSeparator(s: string, c: char)
    requires NotAlnum(c)
    ensures Runs(s + [c]) == Runs(s)
  {
    assert Lower(s + [c]) == Lower(s) + [c];
    Words.SplitAppend(Lower(s), [c], NotAlnum);
    Words.SplitGap([c], NotAlnum);
  }

  lemma RunsOfNewWord(s: string, c: char)
    requires IsAlnum(c) && (s == [] || NotAlnum(s[|s| - 1]))
    ensures Runs(s + [c]) == Runs(s) + [[ToLower(c)]]
  {
    assert Lower(s + [c]) == Lower(s) + [ToLower(c)];
    Words.SplitAppend(Lower(s), [ToLower(c)], NotAlnum);
    Words.SplitWord([ToLower(c)], NotAlnum);
  }

  lemma CutLonger(t: string, c: char, n: nat)
    requires n < |t|
    ensures (t + [c])[..n] == t[..n] && (t + [c])[n..] == t[n..] + [c] && (t + [c])[n] == t[n]
  {
  }

  lemma SplitPastFirst(t: string, c: char, n: nat)
    requires 0 < n < |t| && Words.IsWord(t[..n], NotAlnum) && NotAlnum(t[n])
    ensures Words.Split(t + [c], NotAlnum) == [t[..n]] + Words.Split(t[n..] + [c], NotAlnum)
  {
    CutLonger(t, c, n);
    Words.SplitFront(t + [c], n, NotAlnum);
  }

  /** The last word has one more character. */
  predicate LastGrows(w: seq<string>, longer: seq<string>, c: char) {
    w != [] && longer == w[..|w| - 1] + [w[|w| - 1] + [c]]
  }

  lemma GrowsBehind(first: string, w: seq<string>, longer: seq<string>, c: char)
    requires LastGrows(w, longer, c)
    ensures LastGrows([first] + w, [first] + longer, c)
  {
  }

  lemma SplitPastGap(t: string, c: char)
    requires t != [] && NotAlnum(t[0])
    ensures Words.Split(t, NotAlnum) == Words.Split(t[1..], NotAlnum)
    ensures Words.Split(t + [c], NotAlnum) == Words.Split(t[1..] + [c], NotAlnum)
  {
    assert (t + [c])[1..] == t[1..] + [c];
  }

  lemma {:induction false} SplitOfSameWord(t: string, c: char)
    requires t != [] && IsAlnum(t[|t| - 1]) && IsAlnum(c)
    ensures var w := Words.Split(t, NotAlnum);
            LastGrows(w, Words.Split(t + [c], NotAlnum), c)
    decreases |t|
  {
    if NotAlnum(t[0]) {
      SplitOfSameWord(t[1..], c);
      SplitPastGap(t, c);
    } else if Words.IsWord(t, NotAlnum) {
      Words.SplitWord(t, NotAlnum);
      Words.SplitWord(t + [c], NotAlnum);
    } else {
      var n := Words.WordLength(t, NotAlnum);
      SplitOfSameWord(t[n..], c);
      Words.SplitFront(t, n, NotAlnum);
      SplitPastFirst(t, c, n);
      GrowsBehind(t[..n], Words.Split(t[n..], NotAlnum), Words.Split(t[n..] + [c], NotAlnum), c);
    }
  }

  lemma RunsOfSameWord(s: string, c: char)
    requires s != [] && IsAlnum(s[|s| - 1]) && IsAlnum(c)
    ensures var r := Runs(s);
            r != [] && Runs(s + [c]) == r[..|r| - 1] + [r[|r| - 1] + [ToLower(c)]]
  {
    assert Lower(s + [c]) == Lower(s) + [ToLower(c)];
    SplitOfSameWord(Lower(s), ToLower(c));
  }

  lemma {:induction false} JoinNewWord(words: seq<string>, w: string)
    ensures Join(words + [w]) == if words == [] then w else Join(words) + "-" + w
  {
    if words == [] {
    } else {
      JoinNewWord(words[1..], w);
      assert (words + [w])[1..] == words[1..] + [w];
      if |words| == 1 {
        assert Join(words[1..] + [w]) == w;
      } else {
        assert Join(words + [w]) == words[0] + "-" + (Join(words[1..]) + "-" + w);
        assert words[0] + "-" + (Join(words[1..]) + "-" + w) == words[0] + "-" + Join(words[1..]) + "-" + w;
      }
    }
  }

  lemma JoinLongerWord(words: seq<string>, w: string, c: char)
    ensures Join(words + [w + [c]]) == Join(words + [w]) + [c]
  {
    JoinNewWord(words, w);
    JoinNewWord(words, w + [c]);
  }

  /** What the loop of to_fingerprint has built from a prefix: a dash for leading separators, the joined
      runs, and a dash for trailing separators. */
  function Raw(s: string): string {
    (if s != [] && NotAlnum(s[0]) then "-" else "")
    + Join(Runs(s))
    + (if Runs(s) != [] && NotAlnum(s[|s| - 1]) then "-" else "")
  }

  lemma NoRunsNoAlnum(s: string)
    requires s != [] && Runs(s) == []
    ensures NotAlnum(s[0]) && NotAlnum(s[|s| - 1])
  {
    if IsAlnum(s[|s| - 1]) {
      var p := s[..|s| - 1];
      assert s == p + [s[|s| - 1]];
      if p == [] || NotAlnum(p[|p| - 1]) {
        RunsOfNewWord(p, s[|s| - 1]);
      } else {
        RunsOfSameWord(p, s[|s| - 1]);
      }
    }
  }

  lemma RawNextSeparator(s: string, c: char)
    requires NotAlnum(c)
    ensures Raw(s + [c]) == if s != [] && NotAlnum(s[|s| - 1]) then Raw(s) else Raw(s) + "-"
  {
    RunsOfSeparator(s, c);
    if s != [] && Runs(s) == [] {
      NoRunsNoAlnum(s);
    }
  }

  lemma RawNextNewWord(s: string, c: char)
    requires IsAlnum(c) && (s == [] || NotAlnum(s[|s| - 1]))
    ensures Raw(s + [c]) == Raw(s) + [ToLower(c)]
  {
    RunsOfNewWord(s, c);
    JoinNewWord(Runs(s), [ToLower(c)]);
    if s != [] && Runs(s) == [] {
      NoRunsNoAlnum(s);
    }
  }

  lemma RawNextSameWord(s: string, c: char)
    requires IsAlnum(c) && s != [] && IsAlnum(s[|s| - 1])
    ensures Raw(s + [c]) == Raw(s) + [ToLower(c)]
  {
    RunsOfSameWord(s, c);
    var r := Runs(s);
    JoinLongerWord(r[..|r| - 1], r[|r| - 1], ToLower(c));
    assert r[..|r| - 1] + [r[|r| - 1]] == r;
  }

  lemma RawNext(s: string, c: char)
    ensures Raw(s + [c]) ==
              if IsAlnum(c) then Raw(s) + [ToLower(c)]
              else if s != [] && NotAlnum(s[|s| - 1]) then Raw(s)
              else Raw(s) + "-"
  {
    if NotAlnum(c) {
      RawNextSeparator(s, c);
    } else if s == [] || NotAlnum(s[|s| - 1]) {
      RawNextNewWord(s, c);
    } else {
      RawNextSameWord(s, c);
    }
  }

  predicate EndsInGap(s: string) {
    s != [] && NotAlnum(s[|s| - 1])
  }

  /** The body of the loop, after the characters of s. */
  method AddCharacter(f: string, prevDash: bool, c: char, ghost s: string) returns (r: string, dash: bool)
    requires f == Raw(s) && prevDash == EndsInGap(s)
    ensures r == Raw(s + [c]) && dash == EndsInGap(s + [c])
  {
    r, dash := f, prevDash;
    RawNext(s, c);
    if IsAlnum(c) {
      r, dash := r + [ToLower(c)], false;
    } else if !prevDash {
      r, dash := r + "-", true;
    }
  }

  /** The collecting loop. */
  method CollectRuns(message: string) returns (f: string)
    ensures f == Raw(message)
  {
    f := "";
    var prevDash := false;
    assert message[..0] == [];
    for i := 0 to |message|
      invariant f == Raw(message[..i])
      invariant prevDash == EndsInGap(message[..i])
    {
      f, prevDash := AddCharacter(f, prevDash, message[i], message[..i]);
      assert message[..i + 1] == message[..i] + [message[i]];
    }
    assert message[..|message|] == message;
  }

  /** The two trimming loops. */
  method StripDashes(raw: string, ghost message: string) returns (f: string)
    requires raw == Raw(message)
    ensures f == Join(Runs(message))
  {
    ghost var core := Join(Runs(message));
    ghost var tail := if Runs(message) != [] && NotAlnum(message[|message| - 1]) then "-" else "";
    if Runs(message) != [] {
      OfIsCanonical(message);
    }
    f := raw;
    while f != "" && f[0] == '-'
      invariant f == core + tail || f == "-" + core + tail
      decreases |f|
    {
      f := f[1..];
    }
    while f != "" && f[|f| - 1] == '-'
      invariant f == core || f == core + "-"
      decreases |f|
    {
      f := f[..|f| - 1];
    }
  }

  /** Main result: the three loops compute the joined runs. */
  method ToFingerprint(message: string) returns (f: string)
    ensures f == Of(message)
  {
    f := CollectRuns(message);
    f := StripDashes(f, message);
    if Runs(message) != [] {
      OfIsCanonical(message);
    }
    if f == "" {
      f := UNKNOWN;
    }
  }
}
