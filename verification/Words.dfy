/** The words of a text: its maximal runs of characters that are not separators. Launch-flag tokens,
    fingerprint runs and non-empty lines are all words for some separator test. */
module Words {

  predicate IsWord(w: string, sep: char -> bool) {
    w != [] && forall i :: 0 <= i < |w| ==> !sep(w[i])
  }

  predicate IsGap(g: string, sep: char -> bool) {
    forall i :: 0 <= i < |g| ==> sep(g[i])
  }

  /** Length of the longest prefix without a separator. */
  function WordLength(s: string, sep: char -> bool): (n: nat)
    ensures n <= |s| && (n > 0 ==> IsWord(s[..n], sep)) && (n < |s| ==> sep(s[n]))
  {
    if s == [] || sep(s[0]) then 0
    else
      assert s[..1 + WordLength(s[1..], sep)] == [s[0]] + s[1..][..WordLength(s[1..], sep)];
      1 + WordLength(s[1..], sep)
  }

  function Split(s: string, sep: char -> bool): (words: seq<string>)
    ensures forall i :: 0 <= i < |words| ==> IsWord(words[i], sep)
    decreases |s|
  {
    if s == [] then []
    else if sep(s[0]) then Split(s[1..], sep)
    else
      var n := WordLength(s, sep);
      [s[..n]] + Split(s[n..], sep)
  }

  /** The place between a and b does not lie inside a word. */
  predicate Separates(a: string, b: string, sep: char -> bool) {
    a == [] || b == [] || sep(a[|a| - 1]) || sep(b[0])
  }

  lemma {:induction false} WordLengthAppend(a: string, b: string, sep: char -> bool)
    requires a != [] && !sep(a[0]) && Separates(a, b, sep)
    ensures WordLength(a + b, sep) == WordLength(a, sep)
  {
    if |a| > 1 && !sep(a[1]) {
      WordLengthAppend(a[1..], b, sep);
    }
    assert (a + b)[1..] == a[1..] + b;
  }

  lemma {:induction false} SplitAppend(a: string, b: string, sep: char -> bool)
    requires Separates(a, b, sep)
    ensures Split(a + b, sep) == Split(a, sep) + Split(b, sep)
    decreases |a|
  {
    if a == [] {
      assert a + b == b;
    } else if sep(a[0]) {
      assert (a + b)[1..] == a[1..] + b;
      SplitAppend(a[1..], b, sep);
    } else {
      var n := WordLength(a, sep);
      WordLengthAppend(a, b, sep);
      assert (a + b)[..n] == a[..n];
      assert (a + b)[n..] == a[n..] + b;
      SplitAppend(a[n..], b, sep);
    }
  }

  lemma SplitWord(w: string, sep: char -> bool)
    requires IsWord(w, sep)
    ensures Split(w, sep) == [w]
  {
    var n := WordLength(w, sep);
    assert w[..|w|] == w && w[|w|..] == [];
  }

  lemma {:induction false} SplitGap(g: string, sep: char -> bool)
    requires IsGap(g, sep)
    ensures Split(g, sep) == []
  {
    if g != [] {
      SplitGap(g[1..], sep);
    }
  }

  lemma SplitFront(s: string, n: nat, sep: char -> bool)
    requires 0 < n <= |s| && IsWord(s[..n], sep) && (n < |s| ==> sep(s[n]))
    ensures Split(s, sep) == [s[..n]] + Split(s[n..], sep)
  {
    assert s == s[..n] + s[n..];
    SplitWord(s[..n], sep);
    SplitAppend(s[..n], s[n..], sep);
  }
}
