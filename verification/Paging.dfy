/** Pages of a filtered list, and the class-name filter. */
module Paging {
  import opened Text

  const MAX_PAGE_LIMIT := 200

  function Min(a: int, b: int): int {
    if a < b then a else b
  }

  /** At most `limit` elements from position `offset` on. */
  function Slice<T>(items: seq<T>, offset: nat, limit: nat): (page: seq<T>)
    ensures |page| == if offset >= |items| then 0 else Min(limit, |items| - offset)
    ensures forall i :: 0 <= i < |page| ==> page[i] == items[offset + i]
  {
    if offset >= |items| then [] else items[offset..offset + Min(limit, |items| - offset)]
  }

  /** Growing the list by one element extends the page exactly when the loop's test says so. */
  lemma SliceGrows<T>(items: seq<T>, x: T, offset: nat, limit: nat)
    ensures Slice(items + [x], offset, limit)
            == if |items| >= offset && |Slice(items, offset, limit)| < limit
               then Slice(items, offset, limit) + [x]
               else Slice(items, offset, limit)
  {
  }

  /** The first n consecutive pages. */
  function Pages<T>(items: seq<T>, limit: nat, n: nat): seq<T> {
    if n == 0 then [] else Pages(items, limit, n - 1) + Slice(items, (n - 1) * limit, limit)
  }

  lemma PageExtends<T>(items: seq<T>, k: nat, limit: nat)
    ensures items[..Min(k, |items|)] + Slice(items, k, limit) == items[..Min(k + limit, |items|)]
  {
  }

  lemma NextPage(n: nat, limit: nat)
    requires n > 0
    ensures 0 <= (n - 1) * limit && n * limit == (n - 1) * limit + limit
  {
  }

  /** Consecutive pages concatenate to the list, without gap or overlap. */
  lemma {:induction false} PagesCover<T>(items: seq<T>, limit: nat, n: nat)
    ensures Pages(items, limit, n) == items[..Min(n * limit, |items|)]
  {
    if n > 0 {
      PagesCover(items, limit, n - 1);
      NextPage(n, limit);
      PageExtends(items, (n - 1) * limit, limit);
    }
  }

  predicate MatchesAt(text: string, needle: string, p: int) {
    0 <= p <= |text| - |needle| && forall i :: 0 <= i < |needle| ==> ToLower(text[p + i]) == ToLower(needle[i])
  }

  /** std::search with case-insensitive comparison. */
  predicate ContainsCaseInsensitive(text: string, needle: string) {
    needle == "" || exists p :: 0 <= p <= |text| && MatchesAt(text, needle, p)
  }

  predicate MatchesClass(className: string, filter: string) {
    filter == "" || ContainsCaseInsensitive(className, filter)
  }

  /** The filter sees only lower-cased characters, so the case of either side does not matter. */
  lemma ContainsIgnoresCase(text: string, needle: string)
    ensures ContainsCaseInsensitive(Lower(text), Lower(needle)) <==> ContainsCaseInsensitive(text, needle)
  {
    assert Lower(needle) == "" <==> needle == "";
    forall p ensures MatchesAt(Lower(text), Lower(needle), p) <==> MatchesAt(text, needle, p) {
      if 0 <= p <= |text| - |needle| {
        forall i | 0 <= i < |needle|
          ensures ToLower(Lower(text)[p + i]) == ToLower(text[p + i]) && ToLower(Lower(needle)[i]) == ToLower(needle[i])
        {
        }
      }
    }
  }

  /** An independent reading: somewhere in the text stands the needle, both lower-cased. */
  predicate StandsAt(text: string, needle: string, p: int) {
    0 <= p <= |text| - |needle| && Lower(text)[p..p + |needle|] == Lower(needle)
  }

  ghost predicate Holds(text: string, needle: string) {
    exists p :: StandsAt(text, needle, p)
  }

  lemma MatchesAtMeans(text: string, needle: string, p: int)
    ensures MatchesAt(text, needle, p) <==> StandsAt(text, needle, p)
  {
    if !(0 <= p <= |text| - |needle|) {
      return;
    }
    var cut := Lower(text)[p..p + |needle|];
    assert forall i :: 0 <= i < |needle| ==> cut[i] == ToLower(text[p + i]) && Lower(needle)[i] == ToLower(needle[i]);
    if cut == Lower(needle) {
      assert forall i :: 0 <= i < |needle| ==> cut[i] == Lower(needle)[i];
    }
  }

  lemma ContainsMeans(text: string, needle: string)
    ensures ContainsCaseInsensitive(text, needle) <==> Holds(text, needle)
  {
    if needle == "" {
      assert StandsAt(text, needle, 0);
    } else if ContainsCaseInsensitive(text, needle) {
      var p :| 0 <= p <= |text| && MatchesAt(text, needle, p);
      MatchesAtMeans(text, needle, p);
    } else if Holds(text, needle) {
      var p :| StandsAt(text, needle, p);
      MatchesAtMeans(text, needle, p);
    }
  }

  /** Main result: the filter accepts a class exactly when the lower-cased class name holds the lower-cased
      filter. */
  lemma MatchesClassMeans(className: string, filter: string)
    ensures MatchesClass(className, filter) <==> Holds(className, filter)
  {
    ContainsMeans(className, filter);
  }
}
