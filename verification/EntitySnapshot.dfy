/** EntitySnapshotQuery: paging over the engine's entity slots, with a fast path for one index. */
module EntitySnapshot {
  import opened Text
  import opened Paging

  /** What build_entity_summary reads for a used edict; the geometry and the model are one opaque value. */
  datatype Summary = Summary(index: nat, className: string, rest: int)

  /** The engine as list_entities sees it: the scanned range 1..count and the edict of each index, None
      when it is missing or free. Indices outside the range may have an edict as well. */
  datatype Engine = Engine(count: int, edict: int -> Option<Summary>)

  /** try_build_valid_summary: an edict without a class name is skipped. */
  function ValidSummary(engine: Engine, index: int): Option<Summary> {
    if index <= 0 then None
    else
      match engine.edict(index)
      case None => None
      case Some(s) => if s.className == "" then None else Some(s.(index := index))
  }

  /** The summary of an index, if it is valid and matches: the one the fast path can return. */
  function FastList(engine: Engine, filter: string, id: int): (r: seq<Summary>)
    ensures |r| <= 1 && (r != [] ==> r[0].index == id)
  {
    var s := ValidSummary(engine, id);
    if s.Some? && MatchesClass(s.value.className, filter) then [s.value] else []
  }

  /** The valid, matching summaries with indices up to n, in order. */
  function Filtered(engine: Engine, n: int, filter: string): seq<Summary>
    decreases n
  {
    if n <= 0 then [] else Filtered(engine, n - 1, filter) + FastList(engine, filter, n)
  }

  function WithIndex(items: seq<Summary>, index: int): seq<Summary> {
    if items == [] then []
    else WithIndex(items[..|items| - 1], index)
         + (if items[|items| - 1].index == index then [items[|items| - 1]] else [])
  }

  lemma {:induction false} FilteredIndices(engine: Engine, n: int, filter: string)
    ensures forall i :: 0 <= i < |Filtered(engine, n, filter)| ==> 1 <= Filtered(engine, n, filter)[i].index <= n
    decreases n
  {
    if n > 0 {
      FilteredIndices(engine, n - 1, filter);
    }
  }

  lemma {:induction false} NoSuchIndex(items: seq<Summary>, index: int)
    requires forall i :: 0 <= i < |items| ==> items[i].index != index
    ensures WithIndex(items, index) == []
  {
    if items != [] {
      NoSuchIndex(items[..|items| - 1], index);
    }
  }

  lemma WithIndexAppend(items: seq<Summary>, last: seq<Summary>, n: int, index: int)
    requires |last| <= 1 && (last != [] ==> last[0].index == n)
    ensures WithIndex(items + last, index) == if n == index then WithIndex(items, index) + last
                                              else WithIndex(items, index)
  {
    if last == [] {
      assert items + last == items && WithIndex(items, index) + last == WithIndex(items, index);
    } else {
      assert (items + last)[..|items|] == items && last == [last[0]];
    }
  }

  lemma OnlyLastHasIndex(before: seq<Summary>, last: seq<Summary>, n: int)
    requires |last| <= 1 && (last != [] ==> last[0].index == n)
    requires forall i :: 0 <= i < |before| ==> before[i].index != n
    ensures WithIndex(before + last, n) == last
  {
    WithIndexAppend(before, last, n, n);
    NoSuchIndex(before, n);
    assert [] + last == last;
  }

  lemma RestrictedToLast(engine: Engine, n: int, filter: string)
    requires n > 0
    ensures WithIndex(Filtered(engine, n, filter), n) == FastList(engine, filter, n)
  {
    FilteredIndices(engine, n - 1, filter);
    OnlyLastHasIndex(Filtered(engine, n - 1, filter), FastList(engine, filter, n), n);
  }

  lemma RestrictedToEarlier(engine: Engine, n: int, filter: string, id: int)
    requires 0 < id < n
    ensures WithIndex(Filtered(engine, n, filter), id) == WithIndex(Filtered(engine, n - 1, filter), id)
  {
    WithIndexAppend(Filtered(engine, n - 1, filter), FastList(engine, filter, n), n, id);
  }

  /** For an index inside the scanned range, restricting the full scan to it gives exactly what the
      fast path looks at. */
  lemma {:induction false} FastPathIsRestriction(engine: Engine, n: int, filter: string, id: int)
    requires 1 <= id <= n
    ensures WithIndex(Filtered(engine, n, filter), id) == FastList(engine, filter, id)
    decreases n
  {
    if id == n {
      RestrictedToLast(engine, n, filter);
    } else {
      RestrictedToEarlier(engine, n, filter, id);
      FastPathIsRestriction(engine, n - 1, filter, id);
    }
  }

  // ---------- what is listed ----------

  /** The edict of an index is in use, has a class name, and that name holds the filter. */
  ghost predicate Listed(engine: Engine, index: int, filter: string) {
    index > 0 && engine.edict(index).Some? && engine.edict(index).value.className != ""
    && Holds(engine.edict(index).value.className, filter)
  }

  ghost function Hits(engine: Engine, n: int, filter: string): set<int> {
    set i | 1 <= i <= n && Listed(engine, i, filter)
  }

  /** The summary of a listed edict, under its index. */
  ghost predicate Describes(engine: Engine, s: Summary, filter: string) {
    Listed(engine, s.index, filter) && s == engine.edict(s.index).value.(index := s.index)
  }

  lemma ValidSummaryMeans(engine: Engine, index: int, filter: string)
    ensures var s := ValidSummary(engine, index);
            && (s.Some? && MatchesClass(s.value.className, filter) <==> Listed(engine, index, filter))
            && (Listed(engine, index, filter) ==> s.value.index == index && Describes(engine, s.value, filter))
  {
    if ValidSummary(engine, index).Some? {
      MatchesClassMeans(ValidSummary(engine, index).value.className, filter);
    } else if index > 0 && engine.edict(index).Some? {
      assert engine.edict(index).value.className == "";
    }
  }

  lemma HitsGrow(engine: Engine, n: int, filter: string)
    requires n > 0
    ensures |Hits(engine, n, filter)| == |Hits(engine, n - 1, filter)| + One(Listed(engine, n, filter))
  {
    var before := Hits(engine, n - 1, filter);
    assert n !in before;
    assert Hits(engine, n, filter) == if Listed(engine, n, filter) then before + {n} else before;
  }

  /** Main result: the list holds the summary of every listed edict of the range, once, by rising index, and
      nothing else. */
  lemma {:induction false} FilteredMeans(engine: Engine, n: int, filter: string)
    ensures var items := Filtered(engine, n, filter);
            && |items| == |Hits(engine, n, filter)|
            && (forall i :: 0 <= i < |items| ==> Describes(engine, items[i], filter) && items[i].index <= n)
            && (forall i, j :: 0 <= i < j < |items| ==> items[i].index < items[j].index)
    decreases n
  {
    if n > 0 {
      FilteredMeans(engine, n - 1, filter);
      ValidSummaryMeans(engine, n, filter);
      HitsGrow(engine, n, filter);
    } else {
      assert Hits(engine, n, filter) == {};
    }
  }

  /** The same for the fast path. */
  lemma FastListMeans(engine: Engine, filter: string, id: int)
    ensures var items := FastList(engine, filter, id);
            && |items| == One(Listed(engine, id, filter))
            && (forall i :: 0 <= i < |items| ==> Describes(engine, items[i], filter) && items[i].index == id)
  {
    ValidSummaryMeans(engine, id, filter);
  }

  class Query {
    var lastTotal: int

    constructor ()
      ensures lastTotal == 0
    {
      lastTotal := 0;
    }

    /** The loop over the indices. */
    method ScanEdicts(engine: Engine, offset: nat, limit: nat, filterClass: string)
      returns (entities: seq<Summary>, matched: nat)
      ensures entities == Slice(Filtered(engine, engine.count, filterClass), offset, limit)
      ensures matched == |Filtered(engine, engine.count, filterClass)|
    {
      entities, matched := [], 0;
      var index := 1;
      while index <= engine.count
        invariant 1 <= index && (index <= engine.count + 1 || index == 1)
        invariant matched == |Filtered(engine, index - 1, filterClass)|
        invariant entities == Slice(Filtered(engine, index - 1, filterClass), offset, limit)
      {
        var summary := ValidSummary(engine, index);
        if summary.Some? && MatchesClass(summary.value.className, filterClass) {
          SliceGrows(Filtered(engine, index - 1, filterClass), summary.value, offset, limit);
          if matched >= offset && |entities| < limit {
            entities := entities + [summary.value];
          }
          matched := matched + 1;
        }
        index := index + 1;
      }
    }

    /** Main result: the page is exactly the slice of the filtered list, and the total its full length;
        a negative limit and a missing engine give nothing. */
    method ListEntities(engine: Option<Engine>, offset: int, limit: int, filterId: int, filterClass: string)
      returns (entities: seq<Summary>)
      modifies this
      ensures limit < 0 || engine.None? ==> entities == [] && lastTotal == 0
      ensures limit >= 0 && engine.Some? ==>
                var items := if filterId > 0 then FastList(engine.value, filterClass, filterId)
                             else Filtered(engine.value, engine.value.count, filterClass);
                && entities == Slice(items, if offset < 0 then 0 else offset, Min(limit, MAX_PAGE_LIMIT))
                && lastTotal == |items|
      ensures limit >= 0 && engine.Some? ==>
                && (forall i :: 0 <= i < |entities| ==> Describes(engine.value, entities[i], filterClass))
                && lastTotal == if filterId > 0 then One(Listed(engine.value, filterId, filterClass))
                                else |Hits(engine.value, engine.value.count, filterClass)|
    {
      entities := [];
      lastTotal := 0;
      if engine.Some? {
        FastListMeans(engine.value, filterClass, filterId);
        FilteredMeans(engine.value, engine.value.count, filterClass);
      }
      if limit < 0 {
        return;
      }
      var offset, limit := if offset < 0 then 0 else offset, if limit > MAX_PAGE_LIMIT then MAX_PAGE_LIMIT else limit;
      if engine.None? {
        return;
      }
      if filterId > 0 {
        var summary := ValidSummary(engine.value, filterId);
        if summary.None? {
          return;
        }
        if MatchesClass(summary.value.className, filterClass) {
          lastTotal := 1;
          if offset == 0 && limit > 0 {
            entities := entities + [summary.value];
          }
        }
        return;
      }
      entities, lastTotal := ScanEdicts(engine.value, offset, limit, filterClass);
    }
  }

  /** Main result: asking for one index inside the scanned range is the same as restricting the scan to
      it, page and total alike. */
  lemma FastPathAgrees(engine: Engine, offset: nat, limit: nat, id: int, filter: string)
    requires 1 <= id <= engine.count
    ensures Slice(FastList(engine, filter, id), offset, limit)
            == Slice(WithIndex(Filtered(engine, engine.count, filter), id), offset, limit)
    ensures |FastList(engine, filter, id)| == |WithIndex(Filtered(engine, engine.count, filter), id)|
  {
    FastPathIsRestriction(engine, engine.count, filter, id);
  }

  predicate Agrees(engine: Engine, id: int, filter: string) {
    FastList(engine, filter, id) == WithIndex(Filtered(engine, engine.count, filter), id)
  }

  /** An engine in which every index holds an entity: the fast path finds one that the scan never visits. */
  lemma FastPathSeesMore(count: int, id: int)
    requires id >= 1 && id > count
    ensures var engine := Engine(count, _ => Some(Summary(1, "prop", 0)));
            !Agrees(engine, id, "")
  {
    var engine := Engine(count, _ => Some(Summary(1, "prop", 0)));
    FilteredIndices(engine, count, "");
    NoSuchIndex(Filtered(engine, count, ""), id);
    assert |FastList(engine, "", id)| == 1;
  }

  /** Whatever the engine holds and whatever the filter, the fast path answers like the restricted scan. */
  ghost predicate AlwaysAgrees(count: int, id: int) {
    forall engine: Engine, filter: string :: engine.count == count ==> Agrees(engine, id, filter)
  }

  lemma WithinTheScan(count: int, id: int)
    requires 1 <= id <= count
    ensures AlwaysAgrees(count, id)
  {
    forall engine: Engine, filter: string | engine.count == count ensures Agrees(engine, id, filter) {
      FastPathIsRestriction(engine, count, filter, id);
    }
  }

  /** The exact condition: that is so if and only if the scan reaches the index. */
  lemma FastPathCondition(count: int, id: int)
    requires id >= 1
    ensures AlwaysAgrees(count, id) <==> id <= count
  {
    if id <= count {
      WithinTheScan(count, id);
    } else {
      FastPathSeesMore(count, id);
    }
  }
}
