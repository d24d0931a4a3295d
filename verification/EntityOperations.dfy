/** The public operations of EntityQuery. Each runs inside its own C frame, so the caller's stack is the
    same afterwards on every outcome; inside, no operation pops below its guard, which the
    preconditions of the stack primitives check at every call. */
module EntityOperations {
  import opened Text
  import opened NumberFormat
  import opened LuaStack
  import opened EntityQuery
  import opened Paging

  // ---------- shared beginnings ----------

  ghost predicate Validated(record: seq<CallRecord>, since: nat, w: Option<Value>, v: Option<Value>) {
    if w.None? then v.None?
    else (v.None? || v == w) && Reads(record, since, "IsValid", w.value, WantBool, Bool(false), Bool(v.Some?))
  }

  /** The outcome of the beginning for an index: the located value if it says it is valid. */
  ghost predicate Begun(engine: Engine, t: nat, record: seq<CallRecord>, since: nat, entityIndex: int, v: Option<Value>)
  {
    exists w: Option<Value> :: Located(engine, t, record, since, entityIndex, w) && Validated(record, since, w, v)
  }

  lemma BegunStays(engine: Engine, t: nat, r1: seq<CallRecord>, r2: seq<CallRecord>, since: nat, entityIndex: int,
                   v: Option<Value>)
    requires r1 <= r2 && Begun(engine, t, r1, since, entityIndex, v)
    ensures Begun(engine, t, r2, since, entityIndex, v)
  {
    var w: Option<Value> :| Located(engine, t, r1, since, entityIndex, w) && Validated(r1, since, w, v);
    LocatedStays(engine, t, r1, r2, since, entityIndex, w);
    if w.Some? {
      ReadsStay(r1, r2, since, since, "IsValid", w.value, WantBool, Bool(false), Bool(v.Some?));
    }
    assert Validated(r2, since, w, v);
  }

  const BEGINNING := {"ents.GetByIndex", "IsValid"}

  /** push_entity_by_index followed by the IsValid test every operation but two starts with. */
  method PushValidEntity(lua: Lua, entityIndex: int) returns (st: Status, ok: bool)
    requires lua.Valid() && AccessorsCompile(lua.engine)
    modifies lua`stack, lua`clock, lua`record, lua`faults
    ensures lua.Valid() && old(lua.record) <= lua.record
    ensures st == Done ==> Asks(lua.record, |old(lua.record)|, BEGINNING)
    ensures old(lua.faults) <= lua.faults && (st != Done ==> old(lua.faults) < lua.faults)
    ensures st == Done && ok ==> |lua.stack| == |old(lua.stack)| + 1 && old(lua.stack) <= lua.stack
    ensures st == Done ==> Begun(lua.engine, old(lua.clock), lua.record, |old(lua.record)|, entityIndex,
                                 if ok then Some(lua.stack[|lua.stack| - 1]) else None)
  {
    ghost var since, t := |lua.record|, lua.clock;
    st, ok := PushEntityByIndex(lua, entityIndex);
    if st != Done {
      return;
    }
    if !ok {
      assert Validated(lua.record, since, None, None);
      return;
    }
    ghost var r1, v := lua.record, lua.stack[|lua.stack| - 1];
    var r;
    st, r := TryGetEntityValue(lua, |lua.stack| - 1, "IsValid", WantBool, Bool(false));
    if st != Done {
      return;
    }
    ok := r.Some? && r.value.b;
    LocatedStays(lua.engine, t, r1, lua.record, since, entityIndex, Some(v));
    ReadsStay(lua.record, lua.record, since, |r1|, "IsValid", v, WantBool, Bool(false), Bool(ok));
    assert Validated(lua.record, since, Some(v), if ok then Some(v) else None);
    AsksBoth(r1, lua.record, since, {"ents.GetByIndex"}, {"IsValid"});
    assert {"ents.GetByIndex"} + {"IsValid"} == BEGINNING;
  }

  // ---------- listing entities ----------

  /** The entity values of a table, in iteration order. */
  function EntityValues(pairs: seq<(Value, Value)>): seq<Value> {
    if pairs == [] then []
    else EntityValues(pairs[..|pairs| - 1]) + (if pairs[|pairs| - 1].1.Entity? then [pairs[|pairs| - 1].1] else [])
  }

  lemma EntityValuesGrow(pairs: seq<(Value, Value)>, i: nat)
    requires i < |pairs|
    ensures EntityValues(pairs[..i + 1]) == EntityValues(pairs[..i]) + (if pairs[i].1.Entity? then [pairs[i].1] else [])
  {
    assert pairs[..i + 1][..i] == pairs[..i];
  }

  /** The summaries that pass the class filter. */
  function Matching(seen: seq<Summary>, filter: string): seq<Summary> {
    if seen == [] then []
    else
      var s := seen[|seen| - 1];
      Matching(seen[..|seen| - 1], filter) + (if MatchesClass(s.className, filter) then [s] else [])
  }

  lemma MatchingGrows(seen: seq<Summary>, s: Summary, filter: string)
    ensures Matching(seen + [s], filter)
              == Matching(seen, filter) + (if MatchesClass(s.className, filter) then [s] else [])
  {
    assert (seen + [s])[..|seen|] == seen;
  }

  ghost function Hits(seen: seq<Summary>, filter: string): set<int> {
    set i | 0 <= i < |seen| && Holds(seen[i].className, filter)
  }

  lemma HitsGrow(seen: seq<Summary>, filter: string)
    requires seen != []
    ensures var n := |seen| - 1;
            |Hits(seen, filter)| == |Hits(seen[..n], filter)| + One(Holds(seen[n].className, filter))
  {
    var n := |seen| - 1;
    var before := Hits(seen[..n], filter);
    assert n !in before;
    assert Hits(seen, filter) == if Holds(seen[n].className, filter) then before + {n} else before;
  }

  /** Main result: of the summaries seen, the page is cut from exactly those whose class holds the filter. */
  lemma {:induction false} MatchingMeans(seen: seq<Summary>, filter: string)
    ensures |Matching(seen, filter)| == |Hits(seen, filter)|
    ensures forall s :: s in Matching(seen, filter) ==> s in seen && Holds(s.className, filter)
  {
    if seen == [] {
      assert Hits(seen, filter) == {};
    } else {
      var n := |seen| - 1;
      MatchingMeans(seen[..n], filter);
      MatchesClassMeans(seen[n].className, filter);
      HitsGrow(seen, filter);
    }
  }

  /** One summary for each value, each made of answers given since the walk began. */
  ghost predicate SummariesOf(record: seq<CallRecord>, since: nat, values: seq<Value>, seen: seq<Summary>) {
    |seen| == |values| && forall i :: 0 <= i < |seen| ==> SummaryFrom(record, since, values[i], seen[i])
  }

  lemma SummariesStay(r1: seq<CallRecord>, r2: seq<CallRecord>, since: nat, later: nat, values: seq<Value>,
                      seen: seq<Summary>)
    requires r1 <= r2 && since <= later && SummariesOf(r1, later, values, seen)
    ensures SummariesOf(r2, since, values, seen)
  {
    forall i | 0 <= i < |seen| ensures SummaryFrom(r2, since, values[i], seen[i]) {
      SummaryStays(r1, r2, since, later, values[i], seen[i]);
    }
  }

  /** Summaries of the entity values among the first i pairs. */
  ghost predicate SeenUpTo(record: seq<CallRecord>, since: nat, pairs: seq<(Value, Value)>, i: nat, seen: seq<Summary>)
  {
    i <= |pairs| && SummariesOf(record, since, EntityValues(pairs[..i]), seen)
  }

  lemma SkippedValue(record: seq<CallRecord>, since: nat, pairs: seq<(Value, Value)>, i: nat, seen: seq<Summary>)
    requires i < |pairs| && SeenUpTo(record, since, pairs, i, seen) && !pairs[i].1.Entity?
    ensures SeenUpTo(record, since, pairs, i + 1, seen)
  {
    EntityValuesGrow(pairs, i);
    assert EntityValues(pairs[..i]) + [] == EntityValues(pairs[..i]);
  }

  lemma SummarisedValue(r1: seq<CallRecord>, r2: seq<CallRecord>, since: nat, pairs: seq<(Value, Value)>, i: nat,
                        seen: seq<Summary>, s: Summary)
    requires r1 <= r2 && since <= |r1| && i < |pairs| && SeenUpTo(r1, since, pairs, i, seen)
    requires pairs[i].1.Entity? && SummaryFrom(r2, |r1|, pairs[i].1, s)
    ensures SeenUpTo(r2, since, pairs, i + 1, seen + [s])
  {
    EntityValuesGrow(pairs, i);
    SummariesStay(r1, r2, since, since, EntityValues(pairs[..i]), seen);
    SummaryStays(r2, r2, since, |r1|, pairs[i].1, s);
  }

  function AsSummaries(summary: Option<Summary>): seq<Summary> {
    if summary.Some? then [summary.value] else []
  }

  /** One turn of the entity walk: a value that is not an entity is skipped; either way the value is
      popped and the key stays on top, because the summary is stack-neutral. */
  method VisitEntity(lua: Lua, ghost since: nat, ghost pairs: seq<(Value, Value)>, ghost i: nat,
                     ghost seen: seq<Summary>)
    returns (st: Status, summary: Option<Summary>)
    requires lua.Valid() && AccessorsCompile(lua.engine) && lua.floor + 2 <= |lua.stack| && since <= |lua.record|
    requires i < |pairs| && lua.stack[|lua.stack| - 1] == pairs[i].1 && SeenUpTo(lua.record, since, pairs, i, seen)
    modifies lua`stack, lua`clock, lua`record, lua`faults
    ensures lua.Valid() && old(lua.record) <= lua.record && st != Thrown
    ensures old(lua.faults) <= lua.faults && (st != Done ==> old(lua.faults) < lua.faults)
    ensures st == Done ==> lua.stack == old(lua.stack)[..|old(lua.stack)| - 1]
    ensures st == Done ==> SeenUpTo(lua.record, since, pairs, i + 1, seen + AsSummaries(summary))
  {
    ghost var r1 := lua.record;
    if !lua.stack[|lua.stack| - 1].Entity? {
      SkippedValue(r1, since, pairs, i, seen);
      assert seen + [] == seen;
      lua.Pop(1);
      return Done, None;
    }
    var s;
    st, s := Summarise(lua, |lua.stack| - 1);
    if st == Raised {
      return st, None;
    }
    SummarisedValue(r1, lua.record, since, pairs, i, seen, s);
    lua.Pop(1);
    return Done, Some(s);
  }

  /** The page is the slice of the matching summaries, and the count is their number. */
  predicate Paged(seen: seq<Summary>, page: seq<Summary>, count: nat, offset: nat, limit: nat, filterClass: string) {
    page == Slice(Matching(seen, filterClass), offset, limit) && count == |Matching(seen, filterClass)|
  }

  /** The paging test of the loop body. */
  method AddToPage(entities: seq<Summary>, matched: nat, summary: Option<Summary>, offset: nat, limit: nat,
                   filterClass: string, ghost seen: seq<Summary>)
    returns (page: seq<Summary>, count: nat)
    requires Paged(seen, entities, matched, offset, limit, filterClass)
    ensures Paged(seen + AsSummaries(summary), page, count, offset, limit, filterClass)
  {
    page, count := entities, matched;
    if summary.None? {
      assert seen + [] == seen;
      return;
    }
    MatchingGrows(seen, summary.value, filterClass);
    SliceGrows(Matching(seen, filterClass), summary.value, offset, limit);
    if !MatchesClass(summary.value.className, filterClass) {
      assert Matching(seen, filterClass) + [] == Matching(seen, filterClass);
      return;
    }
    if matched >= offset && |entities| < limit {
      page := page + [summary.value];
    }
    count := count + 1;
  }

  /** One turn of the loop: the value is visited, the page extended, and the walk goes on with the next pair. */
  method EntityTurn(lua: Lua, table: nat, entities: seq<Summary>, matched: nat, offset: nat, limit: nat,
                    filterClass: string, ghost since: nat, ghost walk: seq<Value>, ghost i: nat,
                    ghost seen: seq<Summary>)
    returns (st: Status, more: bool, page: seq<Summary>, count: nat, ghost seen': seq<Summary>)
    requires lua.Valid() && AccessorsCompile(lua.engine) && since <= |lua.record|
    requires lua.floor <= |walk| && table < |walk| && walk[table].Table?
    requires AtPair(lua.stack, walk, lua.engine.table(walk[table].id), i)
    requires SeenUpTo(lua.record, since, lua.engine.table(walk[table].id), i, seen)
    requires Paged(seen, entities, matched, offset, limit, filterClass)
    modifies lua`stack, lua`clock, lua`record, lua`faults
    ensures lua.Valid() && old(lua.record) <= lua.record && st != Thrown
    ensures old(lua.faults) <= lua.faults && (st != Done ==> old(lua.faults) < lua.faults)
    ensures st == Done ==>
              var pairs := lua.engine.table(walk[table].id);
              && SeenUpTo(lua.record, since, pairs, i + 1, seen')
              && Paged(seen', page, count, offset, limit, filterClass)
              && more == (i + 1 < |pairs|)
              && if more then AtPair(lua.stack, walk, pairs, i + 1) else lua.stack == walk
  {
    ghost var pairs := lua.engine.table(walk[table].id);
    more, page, count, seen' := false, entities, matched, seen;
    var summary;
    st, summary := VisitEntity(lua, since, pairs, i, seen);
    if st == Raised {
      return;
    }
    assert lua.stack == walk + [pairs[i].0];
    page, count := AddToPage(entities, matched, summary, offset, limit, filterClass, seen);
    seen' := seen + AsSummaries(summary);
    more := NextPair(lua, table, walk, i + 1);
  }

  /** The walk over the result of ents.GetAll, entered with the table on top. */
  method WalkEntities(lua: Lua, offset: nat, limit: nat, filterClass: string)
    returns (st: Status, entities: seq<Summary>, matched: nat, ghost seen: seq<Summary>)
    requires lua.Valid() && AccessorsCompile(lua.engine)
    requires lua.floor < |lua.stack| && lua.stack[|lua.stack| - 1].Table?
    modifies lua`stack, lua`clock, lua`record, lua`faults
    ensures lua.Valid() && old(lua.record) <= lua.record && st != Thrown
    ensures old(lua.faults) <= lua.faults && (st != Done ==> old(lua.faults) < lua.faults)
    ensures st == Done ==>
              && lua.stack == old(lua.stack)
              && var pairs := lua.engine.table(old(lua.stack)[|old(lua.stack)| - 1].id);
                 && SeenUpTo(lua.record, |old(lua.record)|, pairs, |pairs|, seen)
                 && Paged(seen, entities, matched, offset, limit, filterClass)
  {
    ghost var walk, since := lua.stack, |lua.record|;
    var table := |lua.stack| - 1;
    ghost var pairs, i := lua.engine.table(lua.stack[table].id), 0;
    st, entities, matched, seen := Done, [], 0, [];
    lua.Push(Nil);
    var more := NextPair(lua, table, walk, i);
    while more
      invariant lua.Valid() && st == Done && more == (i < |pairs|) && since <= |lua.record|
      invariant old(lua.record) <= lua.record && old(lua.faults) <= lua.faults
      invariant if more then AtPair(lua.stack, walk, pairs, i) else lua.stack == walk
      invariant SeenUpTo(lua.record, since, pairs, i, seen)
      invariant Paged(seen, entities, matched, offset, limit, filterClass)
      decreases |pairs| - i
    {
      st, more, entities, matched, seen :=
        EntityTurn(lua, table, entities, matched, offset, limit, filterClass, since, walk, i, seen);
      if st == Raised {
        return;
      }
      i := i + 1;
    }
  }

  /** The entity values of the table that ents.GetAll answered with; none if it answered otherwise. */
  function ScannedValues(engine: Engine, reply: Option<Value>): seq<Value> {
    if reply.Some? && reply.value.Table? then EntityValues(engine.table(reply.value.id)) else []
  }

  /** The summaries that were seen: of the one located entity, or of everything ents.GetAll answered with. */
  ghost predicate Listed(engine: Engine, t: nat, record: seq<CallRecord>, since: nat, filterId: int, seen: seq<Summary>)
  {
    if filterId > 0 then
      exists w: Option<Value> ::
        && Located(engine, t, record, since, filterId, w)
        && SummariesOf(record, since, if w.Some? && w.value.Entity? then [w.value] else [], seen)
    else if !EntsHas(engine, t, "GetAll") then seen == []
    else
      && since < |record| && record[since].callee == Named("ents.GetAll") && record[since].args == []
      && SummariesOf(record, since, ScannedValues(engine, Reply(record, since)), seen)
  }

  lemma ListedBy(engine: Engine, t: nat, r1: seq<CallRecord>, r2: seq<CallRecord>, since: nat, id: nat,
                 seen: seq<Summary>)
    requires r1 <= r2 && since + 1 == |r1| && EntsHas(engine, t, "GetAll")
    requires r1[since].callee == Named("ents.GetAll") && r1[since].args == [] && Reply(r1, since) == Some(Table(id))
    requires SeenUpTo(r2, |r1|, engine.table(id), |engine.table(id)|, seen)
    ensures Listed(engine, t, r2, since, 0, seen)
  {
    assert engine.table(id)[..|engine.table(id)|] == engine.table(id);
    SummariesStay(r2, r2, since, |r1|, EntityValues(engine.table(id)), seen);
    ReplyStays(r1, r2, since);
    assert r2[since] == r1[since];
  }

  /** The scan: ents.GetAll, then the walk. The page is the slice of the matching summaries of exactly
      the scanned values, and the total is their number. */
  method ScanEntities(lua: Lua, offset: nat, limit: nat, filterClass: string)
    returns (st: Status, entities: seq<Summary>, total: nat, ghost seen: seq<Summary>)
    requires lua.Valid() && AccessorsCompile(lua.engine)
    modifies lua`stack, lua`clock, lua`record, lua`faults
    ensures lua.Valid() && old(lua.record) <= lua.record
    ensures old(lua.faults) <= lua.faults && (st != Done ==> old(lua.faults) < lua.faults)
    ensures st == Done ==>
              && entities == Slice(Matching(seen, filterClass), offset, limit)
              && total == |Matching(seen, filterClass)|
              && Listed(lua.engine, old(lua.clock), lua.record, |old(lua.record)|, 0, seen)
  {
    entities, total, seen := [], 0, [];
    var ok;
    st, ok := PushEntsTable(lua);
    if st == Raised || !ok {
      return;
    }
    st := lua.GetField(Ents("GetAll"));
    if st == Raised || lua.stack[|lua.stack| - 1] != Function {
      return;
    }
    ghost var since := |lua.record|;
    st := PcallChecked(lua, Named("ents.GetAll"), 0, 1);
    if st == Thrown {
      return;
    }
    ghost var r1 := lua.record;
    assert Reply(r1, since) == Some(lua.stack[|lua.stack| - 1]);
    if !lua.stack[|lua.stack| - 1].Table? {
      return;
    }
    ghost var id := lua.stack[|lua.stack| - 1].id;
    st, entities, total, seen := WalkEntities(lua, offset, limit, filterClass);
    if st == Done {
      ListedBy(lua.engine, old(lua.clock), r1, lua.record, since, id, seen);
    }
  }

  /** The fast path for one index. */
  method FindEntity(lua: Lua, offset: nat, limit: nat, filterId: int, filterClass: string)
    returns (st: Status, entities: seq<Summary>, total: nat, ghost seen: seq<Summary>)
    requires lua.Valid() && AccessorsCompile(lua.engine) && filterId > 0
    modifies lua`stack, lua`clock, lua`record, lua`faults
    ensures lua.Valid() && old(lua.record) <= lua.record
    ensures old(lua.faults) <= lua.faults && (st != Done ==> old(lua.faults) < lua.faults)
    ensures st == Done ==>
              && entities == Slice(Matching(seen, filterClass), offset, limit)
              && total == |Matching(seen, filterClass)|
              && Listed(lua.engine, old(lua.clock), lua.record, |old(lua.record)|, filterId, seen)
  {
    entities, total, seen := [], 0, [];
    ghost var since, t := |lua.record|, lua.clock;
    var ok;
    st, ok := PushEntityByIndex(lua, filterId);
    if st != Done {
      return;
    }
    ghost var r1 := lua.record;
    ghost var w := if ok then Some(lua.stack[|lua.stack| - 1]) else None;
    if !ok || !lua.stack[|lua.stack| - 1].Entity? {
      assert Located(lua.engine, t, lua.record, since, filterId, w) && SummariesOf(lua.record, since, [], seen);
      return;
    }
    var summary;
    st, summary := Summarise(lua, |lua.stack| - 1);
    if st == Raised {
      return;
    }
    seen := [summary];
    SummaryStays(lua.record, lua.record, since, |r1|, w.value, summary);
    LocatedStays(lua.engine, t, r1, lua.record, since, filterId, w);
    assert SummariesOf(lua.record, since, [w.value], seen);
    assert seen[..0] == [];
    if MatchesClass(summary.className, filterClass) {
      total := 1;
      if offset == 0 && limit > 0 {
        entities := entities + [summary];
      }
    }
  }

  // ---------- details ----------

  function OrNil(n: Option<Number>): Value {
    if n.Some? then Num(n.value) else Nil
  }

  /** The index of a value that says it is valid; none otherwise. */
  ghost predicate ValidIndexFrom(record: seq<CallRecord>, since: nat, v: Value, index: Option<Number>) {
    || (Reads(record, since, "IsValid", v, WantBool, Bool(false), Bool(false)) && index.None?)
    || (Reads(record, since, "IsValid", v, WantBool, Bool(false), Bool(true))
        && Reads(record, since, "EntIndex", v, WantNumber, Nil, OrNil(index)))
  }

  lemma ValidIndexStays(r1: seq<CallRecord>, r2: seq<CallRecord>, since: nat, later: nat, v: Value,
                        index: Option<Number>)
    requires r1 <= r2 && since <= later && ValidIndexFrom(r1, later, v, index)
    ensures ValidIndexFrom(r2, since, v, index)
  {
    if Reads(r1, later, "IsValid", v, WantBool, Bool(false), Bool(false)) && index.None? {
      ReadsStay(r1, r2, since, later, "IsValid", v, WantBool, Bool(false), Bool(false));
    } else {
      ReadsStay(r1, r2, since, later, "IsValid", v, WantBool, Bool(false), Bool(true));
      ReadsStay(r1, r2, since, later, "EntIndex", v, WantNumber, Nil, OrNil(index));
    }
  }

  /** The parent index is that of the value the entity names as its parent. */
  ghost predicate ParentFrom(record: seq<CallRecord>, since: nat, entity: Value, parent: Option<Number>) {
    exists p :: Reads(record, since, "GetParent", entity, WantAny, Nil, p) && ValidIndexFrom(record, since, p, parent)
  }

  lemma ParentStays(r1: seq<CallRecord>, r2: seq<CallRecord>, since: nat, later: nat, v: Value, parent: Option<Number>)
    requires r1 <= r2 && since <= later && ParentFrom(r1, later, v, parent)
    ensures ParentFrom(r2, since, v, parent)
  {
    var p :| Reads(r1, later, "GetParent", v, WantAny, Nil, p) && ValidIndexFrom(r1, later, p, parent);
    ReadsStay(r1, r2, since, later, "GetParent", v, WantAny, Nil, p);
    ValidIndexStays(r1, r2, since, later, p, parent);
  }

  method ReadValidIndex(lua: Lua, value: nat) returns (st: Status, index: Option<Number>)
    requires lua.Valid() && AccessorsCompile(lua.engine) && value < |lua.stack|
    modifies lua`stack, lua`clock, lua`record, lua`faults
    ensures lua.Valid() && old(lua.record) <= lua.record && st != Thrown
    ensures old(lua.faults) <= lua.faults && (st != Done ==> old(lua.faults) < lua.faults)
    ensures st == Done ==> lua.stack == old(lua.stack)
    ensures st == Done ==> ValidIndexFrom(lua.record, |old(lua.record)|, old(lua.stack)[value], index)
  {
    ghost var since, v := |lua.record|, lua.stack[value];
    index := None;
    var r;
    st, r := TryGetEntityValue(lua, value, "IsValid", WantBool, Bool(false));
    if st == Raised || r.None? || !r.value.b {
      return;
    }
    ghost var r1 := lua.record;
    st, r := TryGetEntityValue(lua, value, "EntIndex", WantNumber, Nil);
    if st == Raised {
      return;
    }
    index := if r.Some? then Some(r.value.n) else None;
    ReadsStay(r1, lua.record, since, since, "IsValid", v, WantBool, Bool(false), Bool(true));
    ReadsStay(lua.record, lua.record, since, |r1|, "EntIndex", v, WantNumber, Nil, OrNil(index));
  }

  lemma NoParent(record: seq<CallRecord>, since: nat, v: Value)
    requires Reads(record, since, "GetParent", v, WantAny, Nil, Nil)
    ensures ParentFrom(record, since, v, None)
  {
    assert ValidIndexFrom(record, since, Nil, None);
  }

  lemma ParentFound(r1: seq<CallRecord>, r2: seq<CallRecord>, since: nat, v: Value, p: Value, parent: Option<Number>)
    requires r1 <= r2 && since <= |r1| && Reads(r1, since, "GetParent", v, WantAny, Nil, p)
    requires ValidIndexFrom(r2, |r1|, p, parent)
    ensures ParentFrom(r2, since, v, parent)
  {
    ReadsStay(r1, r2, since, since, "GetParent", v, WantAny, Nil, p);
    ValidIndexStays(r2, r2, since, |r1|, p, parent);
  }

  method ReadParent(lua: Lua, entity: nat) returns (st: Status, parent: Option<Number>)
    requires lua.Valid() && AccessorsCompile(lua.engine) && entity < |lua.stack|
    modifies lua`stack, lua`clock, lua`record, lua`faults
    ensures lua.Valid() && old(lua.record) <= lua.record && st != Thrown
    ensures old(lua.faults) <= lua.faults && (st != Done ==> old(lua.faults) < lua.faults)
    ensures st == Done ==> lua.stack == old(lua.stack)
    ensures st == Done ==> ParentFrom(lua.record, |old(lua.record)|, old(lua.stack)[entity], parent)
  {
    ghost var s, since := lua.stack, |lua.record|;
    var ok;
    st, ok := InvokeEntityMethod(lua, entity, "GetParent");
    if st == Raised {
      return st, None;
    }
    if st == Thrown || !ok {
      NoParent(lua.record, since, s[entity]);
      return Done, None;
    }
    ghost var p, r1 := lua.stack[|lua.stack| - 1], lua.record;
    st, parent := ReadValidIndex(lua, |lua.stack| - 1);
    if st == Raised {
      return;
    }
    ParentFound(r1, lua.record, since, s[entity], p, parent);
    lua.Pop(1);
    assert lua.stack == s;
  }

  /** Summary, parent and health are what the methods of the found entity brought. */
  ghost predicate DetailFrom(record: seq<CallRecord>, since: nat, v: Value, d: Detail) {
    && d.Detail?
    && SummaryFrom(record, since, v, d.summary) && ParentFrom(record, since, v, d.parent)
    && Reads(record, since, "Health", v, WantNumber, Nil, OrNil(d.health))
  }

  lemma DetailStays(r1: seq<CallRecord>, r2: seq<CallRecord>, since: nat, later: nat, v: Value, d: Detail)
    requires r1 <= r2 && since <= later && DetailFrom(r1, later, v, d)
    ensures DetailFrom(r2, since, v, d)
  {
    SummaryStays(r1, r2, since, later, v, d.summary);
    ParentStays(r1, r2, since, later, v, d.parent);
    ReadsStay(r1, r2, since, later, "Health", v, WantNumber, Nil, OrNil(d.health));
  }

  /** The part of get_entity_detail that runs with the entity at hand. */
  method DescribeEntity(lua: Lua, entity: nat) returns (st: Status, detail: Detail)
    requires lua.Valid() && AccessorsCompile(lua.engine) && entity < |lua.stack|
    modifies lua`stack, lua`clock, lua`record, lua`faults
    ensures lua.Valid() && old(lua.record) <= lua.record && st != Thrown
    ensures old(lua.faults) <= lua.faults && (st != Done ==> old(lua.faults) < lua.faults)
    ensures st == Done ==> DetailFrom(lua.record, |old(lua.record)|, old(lua.stack)[entity], detail)
  {
    ghost var since, v := |lua.record|, lua.stack[entity];
    detail := Detail(EMPTY_SUMMARY, None, None);
    var summary;
    st, summary := Summarise(lua, entity);
    if st == Raised {
      return;
    }
    ghost var r1 := lua.record;
    var parent;
    st, parent := ReadParent(lua, entity);
    if st == Raised {
      return;
    }
    ghost var r2 := lua.record;
    var health;
    st, health := TryGetEntityValue(lua, entity, "Health", WantNumber, Nil);
    if st == Raised {
      return;
    }
    detail := Detail(summary, parent, if health.Some? then Some(health.value.n) else None);
    SummaryStays(r1, lua.record, since, since, v, summary);
    ParentStays(r2, lua.record, since, |r1|, v, parent);
    ReadsStay(lua.record, lua.record, since, |r2|, "Health", v, WantNumber, Nil, OrNil(detail.health));
  }

  /** A detail describes the value located for the index; without one there is none. */
  ghost predicate DetailAnswers(engine: Engine, t: nat, record: seq<CallRecord>, since: nat, entityIndex: int,
                                d: Detail)
  {
    exists w: Option<Value> ::
      && Located(engine, t, record, since, entityIndex, w)
      && if w.None? then d == NotFound(entityIndex) else DetailFrom(record, since, w.value, d)
  }

  method GetEntityDetailImpl(lua: Lua, entityIndex: int) returns (st: Status, detail: Detail)
    requires lua.Valid() && AccessorsCompile(lua.engine)
    modifies lua`stack, lua`clock, lua`record, lua`faults
    ensures lua.Valid() && old(lua.record) <= lua.record
    ensures old(lua.faults) <= lua.faults && (st != Done ==> old(lua.faults) < lua.faults)
    ensures st == Done ==> DetailAnswers(lua.engine, old(lua.clock), lua.record, |old(lua.record)|, entityIndex, detail)
  {
    ghost var since, t := |lua.record|, lua.clock;
    detail := NotFound(entityIndex);
    if entityIndex <= 0 {
      assert Located(lua.engine, t, lua.record, since, entityIndex, None);
      return Done, detail;
    }
    var ok;
    st, ok := PushEntityByIndex(lua, entityIndex);
    if st != Done {
      return;
    }
    ghost var r1, w := lua.record, if ok then Some(lua.stack[|lua.stack| - 1]) else None;
    if !ok {
      assert Located(lua.engine, t, lua.record, since, entityIndex, w);
      return;
    }
    st, detail := DescribeEntity(lua, |lua.stack| - 1);
    if st == Done {
      LocatedStays(lua.engine, t, r1, lua.record, since, entityIndex, w);
      DetailStays(lua.record, lua.record, since, |r1|, w.value, detail);
    }
  }

  // ---------- table entries ----------

  ghost predicate TableRead(record: seq<CallRecord>, since: nat, v: Option<Value>, name: string, id: Option<nat>) {
    if v.None? then id.None?
    else exists h :: Reads(record, since, name, v.value, WantAny, Nil, h) && id == if h.Table? then Some(h.id) else None
  }

  /** The table that the method of the valid entity brought; none without one. */
  ghost predicate TableFound(engine: Engine, t: nat, record: seq<CallRecord>, since: nat, entityIndex: int,
                             name: string,
                             id: Option<nat>)
  {
    exists v: Option<Value> :: Begun(engine, t, record, since, entityIndex, v) && TableRead(record, since, v, name, id)
  }

  lemma TableFoundStays(engine: Engine, t: nat, r1: seq<CallRecord>, r2: seq<CallRecord>, since: nat, entityIndex: int,
                        name: string, id: Option<nat>)
    requires r1 <= r2 && TableFound(engine, t, r1, since, entityIndex, name, id)
    ensures TableFound(engine, t, r2, since, entityIndex, name, id)
  {
    var v: Option<Value> :| Begun(engine, t, r1, since, entityIndex, v) && TableRead(r1, since, v, name, id);
    BegunStays(engine, t, r1, r2, since, entityIndex, v);
    if v.Some? {
      var h :| Reads(r1, since, name, v.value, WantAny, Nil, h) && id == if h.Table? then Some(h.id) else None;
      ReadsStay(r1, r2, since, since, name, v.value, WantAny, Nil, h);
    }
    assert TableRead(r2, since, v, name, id);
  }

  lemma TableFoundBy(engine: Engine, t: nat, r1: seq<CallRecord>, r2: seq<CallRecord>, since: nat, entityIndex: int,
                     name: string, v: Value, h: Value)
    requires r1 <= r2 && since <= |r1| && Begun(engine, t, r1, since, entityIndex, Some(v))
    requires Reads(r2, |r1|, name, v, WantAny, Nil, h) && Asks(r1, since, BEGINNING) && Asks(r2, |r1|, {name})
    ensures Asks(r2, since, BEGINNING + {name})
    ensures TableFound(engine, t, r2, since, entityIndex, name, if h.Table? then Some(h.id) else None)
  {
    ReadsStay(r2, r2, since, |r1|, name, v, WantAny, Nil, h);
    BegunStays(engine, t, r1, r2, since, entityIndex, Some(v));
    assert TableRead(r2, since, Some(v), name, if h.Table? then Some(h.id) else None);
    AsksBoth(r1, r2, since, BEGINNING, {name});
  }

  /** Calls the method and keeps its answer on the stack only if it is a table. */
  method PushAnswer(lua: Lua, entity: nat, name: string) returns (st: Status, ok: bool, ghost h: Value)
    requires lua.Valid() && AccessorsCompile(lua.engine) && entity < |lua.stack|
    modifies lua`stack, lua`clock, lua`record, lua`faults
    ensures lua.Valid() && old(lua.record) <= lua.record
    ensures Asks(lua.record, |old(lua.record)|, {name})
    ensures old(lua.faults) <= lua.faults && (st != Done ==> old(lua.faults) < lua.faults)
    ensures st == Done ==> Reads(lua.record, |old(lua.record)|, name, old(lua.stack)[entity], WantAny, Nil, h)
    ensures st == Done ==> ok == h.Table? && (ok ==> lua.floor < |lua.stack| && lua.stack[|lua.stack| - 1] == h)
    ensures st == Done ==> lua.stack == old(lua.stack) + (if ok then [h] else [])
  {
    h := Nil;
    st, ok := InvokeEntityMethod(lua, entity, name);
    if st != Done || !ok {
      return;
    }
    h := lua.stack[|lua.stack| - 1];
    if !lua.stack[|lua.stack| - 1].Table? {
      lua.Pop(1);
      ok := false;
    }
  }

  lemma NoTableWithout(engine: Engine, t: nat, record: seq<CallRecord>, since: nat, entityIndex: int, name: string)
    requires Begun(engine, t, record, since, entityIndex, None) && since <= |record| && Asks(record, since, BEGINNING)
    ensures TableFound(engine, t, record, since, entityIndex, name, None) && Asks(record, since, BEGINNING + {name})
  {
    assert TableRead(record, since, None, name, None);
    assert Asks(record, |record|, {name});
    AsksBoth(record, record, since, BEGINNING, {name});
  }

  /** The second half, with the valid entity on top. */
  method PushTableOf(lua: Lua, name: string, ghost since: nat, ghost t: nat, ghost entityIndex: int)
    returns (st: Status, ok: bool)
    requires lua.Valid() && AccessorsCompile(lua.engine) && lua.stack != [] && since <= |lua.record|
    requires Begun(lua.engine, t, lua.record, since, entityIndex, Some(lua.stack[|lua.stack| - 1]))
    requires Asks(lua.record, since, BEGINNING)
    modifies lua`stack, lua`clock, lua`record, lua`faults
    ensures lua.Valid() && old(lua.record) <= lua.record
    ensures st == Done ==> Asks(lua.record, since, BEGINNING + {name})
    ensures old(lua.faults) <= lua.faults && (st != Done ==> old(lua.faults) < lua.faults)
    ensures st == Done && ok ==> lua.floor < |lua.stack| && lua.stack[|lua.stack| - 1].Table?
    ensures st == Done ==> TableFound(lua.engine, t, lua.record, since, entityIndex, name,
                                      if ok then Some(lua.stack[|lua.stack| - 1].id) else None)
  {
    ghost var r1, v := lua.record, lua.stack[|lua.stack| - 1];
    ghost var h;
    st, ok, h := PushAnswer(lua, |lua.stack| - 1, name);
    if st == Done {
      TableFoundBy(lua.engine, t, r1, lua.record, since, entityIndex, name, v, h);
    }
  }

  /** Pushes the table that the method of the valid entity answers with. */
  method PushEntityTable(lua: Lua, entityIndex: int, name: string) returns (st: Status, ok: bool)
    requires lua.Valid() && AccessorsCompile(lua.engine)
    modifies lua`stack, lua`clock, lua`record, lua`faults
    ensures lua.Valid() && old(lua.record) <= lua.record
    ensures st == Done ==> Asks(lua.record, |old(lua.record)|, BEGINNING + {name})
    ensures old(lua.faults) <= lua.faults && (st != Done ==> old(lua.faults) < lua.faults)
    ensures st == Done && ok ==> lua.floor < |lua.stack| && lua.stack[|lua.stack| - 1].Table?
    ensures st == Done ==> TableFound(lua.engine, old(lua.clock), lua.record, |old(lua.record)|, entityIndex, name,
                                      if ok then Some(lua.stack[|lua.stack| - 1].id) else None)
  {
    ghost var since, t := |lua.record|, lua.clock;
    st, ok := PushValidEntity(lua, entityIndex);
    if st == Done && ok {
      st, ok := PushTableOf(lua, name, since, t, entityIndex);
    } else if st == Done {
      NoTableWithout(lua.engine, t, lua.record, since, entityIndex, name);
    }
  }

  /** The entries are the first ones of the table that was found, and none without a table. */
  ghost predicate EntriesAnswer(engine: Engine, t: nat, record: seq<CallRecord>, since: nat, entityIndex: int,
                                name: string, filter: string, entries: seq<Entry>)
  {
    exists id: Option<nat> ::
      && TableFound(engine, t, record, since, entityIndex, name, id)
      && entries == if id.None? then [] else FirstEntries(engine.table(id.value), filter, MAX_TABLE_ENTRIES)
  }

  lemma NothingFound(engine: Engine, t: nat, record: seq<CallRecord>, entityIndex: int, name: string)
    requires entityIndex <= 0
    ensures Begun(engine, t, record, |record|, entityIndex, None)
    ensures TableFound(engine, t, record, |record|, entityIndex, name, None)
  {
    assert Located(engine, t, record, |record|, entityIndex, None) && Validated(record, |record|, None, None);
    assert TableRead(record, |record|, None, name, None);
  }

  /** get_entity_table_entries and get_entity_network_var_entries: the same walk over the answer of
      GetTable or GetNetworkVars. */
  method GetEntriesImpl(lua: Lua, entityIndex: int, name: string, filter: string)
    returns (st: Status, entries: seq<Entry>)
    requires lua.Valid() && AccessorsCompile(lua.engine)
    modifies lua`stack, lua`clock, lua`record, lua`faults
    ensures lua.Valid() && old(lua.record) <= lua.record
    ensures old(lua.faults) <= lua.faults && (st != Done ==> old(lua.faults) < lua.faults)
    ensures st == Done ==> EntriesAnswer(lua.engine, old(lua.clock), lua.record, |old(lua.record)|, entityIndex,
              name, filter, entries)
  {
    entries := [];
    if entityIndex <= 0 {
      NothingFound(lua.engine, lua.clock, lua.record, entityIndex, name);
      return Done, entries;
    }
    var ok;
    st, ok := PushEntityTable(lua, entityIndex, name);
    if st == Done && ok {
      entries := WalkEntries(lua, filter);
    }
  }

  // ---------- setters ----------

  predicate IsFieldNameChar(c: char) {
    IsAlnum(c) || c == '_'
  }

  predicate IsValidFieldName(name: string) {
    && name != "" && |name| <= 64
    && !(|name| >= 2 && name[0] == '_' && name[1] == '_')
    && forall i :: 0 <= i < |name| ==> IsFieldNameChar(name[i])
  }

  /** push_json_primitive: what a JSON value becomes on the stack, if it may. */
  function PrimitiveOf(value: Json): Option<Value> {
    match value
    case JString(s) => Some(Str(CString(s)))
    case JNumber(n) => if n.NonFinite? then None else Some(Num(n))
    case JBool(b) => Some(Bool(b))
    case _ => None
  }

  /** push_json_value: primitives, and arrays of three finite numbers as vectors. */
  function ValueOf(value: Json): Option<Value> {
    if PrimitiveOf(value).Some? then PrimitiveOf(value)
    else if value.JArray? && |value.items| == 3
            && (forall i :: 0 <= i < 3 ==> value.items[i].JNumber? && value.items[i].n.Millionths?)
    then Some(Vector(value.items[0].n, value.items[1].n, value.items[2].n))
    else None
  }

  // Reading back what was pushed: JsonOf is the same function that shows a value to the client.

  /** A string without NUL, a finite number or a bool. */
  predicate Plain(v: Value) {
    (v.Str? && '\0' !in v.s) || v.Bool? || (v.Num? && v.n.Millionths?)
  }

  predicate Finite(x: Number, y: Number, z: Number) {
    x.Millionths? && y.Millionths? && z.Millionths?
  }

  predicate Sendable(v: Value) {
    Plain(v) || (v.Vector? && Finite(v.x, v.y, v.z))
  }

  /** Strings are passed on as C strings; nothing else is changed. */
  predicate Passes(value: Json) {
    value.JString? ==> '\0' !in value.s
  }

  lemma PlainReadsBack(v: Value)
    requires Plain(v)
    ensures PrimitiveOf(JsonOf(v)) == Some(v) && Passes(JsonOf(v))
  {
    if v.Str? {
      CStringMeans(v.s);
    }
  }

  /** Main result: what push_json_primitive accepts is exactly the JSON of strings, finite numbers and bools,
      and unless a string has a NUL inside, the value pushed reads back as the JSON given. */
  lemma PrimitiveReadsBack(value: Json)
    ensures PrimitiveOf(value).Some? <==> value.JString? || value.JBool? || (value.JNumber? && value.n.Millionths?)
    ensures PrimitiveOf(value).Some? && Passes(value) <==> exists v :: Plain(v) && JsonOf(v) == value
    ensures PrimitiveOf(value).Some? ==>
              var v := PrimitiveOf(value).value;
              Plain(v) && (JsonOf(v) == value <==> Passes(value))
  {
    if PrimitiveOf(value).Some? {
      if value.JString? {
        CStringMeans(value.s);
        CStringMeans(CString(value.s));
      }
      var pushed := PrimitiveOf(value).value;
      assert Plain(pushed) && (Passes(value) ==> JsonOf(pushed) == value);
    }
    if v :| Plain(v) && JsonOf(v) == value {
      PlainReadsBack(v);
    }
  }

  lemma SendableReadsBack(v: Value)
    requires Sendable(v)
    ensures ValueOf(JsonOf(v)) == Some(v) && Passes(JsonOf(v))
  {
    if Plain(v) {
      PlainReadsBack(v);
    }
  }

  /** Main result: the same for push_json_value, which also accepts the JSON of finite vectors. */
  lemma ValueReadsBack(value: Json)
    ensures ValueOf(value).Some? && Passes(value) <==> exists v :: Sendable(v) && JsonOf(v) == value
    ensures ValueOf(value).Some? ==>
              var v := ValueOf(value).value;
              Sendable(v) && (JsonOf(v) == value <==> Passes(value))
  {
    PrimitiveReadsBack(value);
    if PrimitiveOf(value).None? && ValueOf(value).Some? {
      var items := value.items;
      assert items == [items[0], items[1], items[2]];
    }
    if ValueOf(value).Some? {
      var pushed := ValueOf(value).value;
      assert Sendable(pushed) && (Passes(value) ==> JsonOf(pushed) == value);
    }
    if v :| Sendable(v) && JsonOf(v) == value {
      SendableReadsBack(v);
    }
  }

  lemma FieldNameMeans(name: string)
    ensures IsValidFieldName(name) <==>
              && 1 <= |name| <= 64 && !("__" <= name)
              && forall c :: c in name ==> c in DIGITS || c in UPPER || c in LOWER || c in "_"
  {
    forall c ensures IsFieldNameChar(c) <==> c in DIGITS || c in UPPER || c in LOWER || c in "_" {
      LettersListed(c);
    }
    assert IsValidFieldName(name) ==> forall c :: c in name ==> IsFieldNameChar(c);
  }

  /** The last call made returned, and v was its last argument. */
  predicate EndsWith(record: seq<CallRecord>, v: Value) {
    && record != [] && record[|record| - 1].outcome.Returns? && record[|record| - 1].args != []
    && record[|record| - 1].args[|record[|record| - 1].args| - 1] == v
  }

  /** The last call made was this one, and its last argument reads back as the JSON value that was given,
      unless a string was cut at a NUL. */
  ghost predicate LastArgumentIs(record: seq<CallRecord>, value: Json) {
    exists v :: EndsWith(record, v) && (Passes(value) ==> JsonOf(v) == value)
  }

  /** Assigns to the field of the entity or table on top, if the value can be pushed. */
  method AssignOnTop(lua: Lua, name: string, value: Option<Value>) returns (st: Status, updated: bool)
    requires lua.Valid() && AccessorsCompile(lua.engine) && lua.stack != []
    modifies lua`stack, lua`clock, lua`record, lua`faults
    ensures lua.Valid() && old(lua.record) <= lua.record
    ensures old(lua.faults) <= lua.faults && (st != Done ==> old(lua.faults) < lua.faults)
    ensures st == Done ==> updated == value.Some?
    ensures st == Done && !updated ==> lua.record == old(lua.record)
    ensures st == Done && updated ==>
              && MadeCall(lua.record, SetAccessor, [old(lua.stack)[|old(lua.stack)| - 1], Str(name), value.value], true)
              && EndsWith(lua.record, value.value)
  {
    if value.None? {
      return Done, false;
    }
    var table := |lua.stack| - 1;
    lua.Push(value.value);
    st := SetFieldProtected(lua, table, name);
    updated := st == Done;
  }

  /** set_entity_field: the assignment is made, last and on the valid entity, exactly when the name is
      acceptable, the entity is there and the value can be pushed; otherwise nothing is assigned. */
  ghost predicate FieldSet(engine: Engine, t: nat, record: seq<CallRecord>, since: nat, entityIndex: int, name: string,
                           value: Option<Value>, updated: bool)
  {
    && (!updated ==> Asks(record, since, BEGINNING))
    && if !IsValidFieldName(name) then !updated
       else exists v: Option<Value> ::
         && Begun(engine, t, record, since, entityIndex, v)
         && updated == (v.Some? && value.Some?)
         && (updated ==> MadeCall(record, SetAccessor, [v.value, Str(name), value.value], true))
  }

  method SetEntityFieldImpl(lua: Lua, entityIndex: int, name: string, value: Json) returns (st: Status, updated: bool)
    requires lua.Valid() && AccessorsCompile(lua.engine)
    modifies lua`stack, lua`clock, lua`record, lua`faults
    ensures lua.Valid() && old(lua.record) <= lua.record
    ensures old(lua.faults) <= lua.faults && (st != Done ==> old(lua.faults) < lua.faults)
    ensures st == Done ==>
              FieldSet(lua.engine, old(lua.clock), lua.record, |old(lua.record)|, entityIndex, name,
                  PrimitiveOf(value), updated)
    ensures st == Done && updated ==> LastArgumentIs(lua.record, value)
  {
    ghost var since, t := |lua.record|, lua.clock;
    if entityIndex <= 0 || !IsValidFieldName(name) {
      if entityIndex <= 0 {
        NothingFound(lua.engine, t, lua.record, entityIndex, name);
      }
      return Done, false;
    }
    st, updated := PushValidEntity(lua, entityIndex);
    if st != Done || !updated {
      return;
    }
    ghost var r1, v := lua.record, lua.stack[|lua.stack| - 1];
    st, updated := AssignOnTop(lua, name, PrimitiveOf(value));
    PrimitiveReadsBack(value);
    BegunStays(lua.engine, t, r1, lua.record, since, entityIndex, Some(v));
  }

  /** set_entity_table_field: here the assignment goes to the table that GetTable brought. */
  ghost predicate TableFieldSet(engine: Engine, t: nat, record: seq<CallRecord>, since: nat, entityIndex: int,
                                name: string,
                                value: Option<Value>, updated: bool)
  {
    && (!updated ==> Asks(record, since, BEGINNING + {"GetTable"}))
    && if !IsValidFieldName(name) then !updated
       else exists id: Option<nat> ::
         && TableFound(engine, t, record, since, entityIndex, "GetTable", id)
         && updated == (id.Some? && value.Some?)
         && (updated ==> MadeCall(record, SetAccessor, [Table(id.value), Str(name), value.value], true))
  }

  method SetEntityTableFieldImpl(lua: Lua, entityIndex: int, name: string, value: Json)
    returns (st: Status, updated: bool)
    requires lua.Valid() && AccessorsCompile(lua.engine)
    modifies lua`stack, lua`clock, lua`record, lua`faults
    ensures lua.Valid() && old(lua.record) <= lua.record
    ensures old(lua.faults) <= lua.faults && (st != Done ==> old(lua.faults) < lua.faults)
    ensures st == Done ==>
              TableFieldSet(lua.engine, old(lua.clock), lua.record, |old(lua.record)|, entityIndex, name,
                  ValueOf(value), updated)
    ensures st == Done && updated ==> LastArgumentIs(lua.record, value)
  {
    ghost var since, t := |lua.record|, lua.clock;
    if entityIndex <= 0 || !IsValidFieldName(name) {
      if entityIndex <= 0 {
        NothingFound(lua.engine, t, lua.record, entityIndex, "GetTable");
      }
      return Done, false;
    }
    st, updated := PushEntityTable(lua, entityIndex, "GetTable");
    if st != Done || !updated {
      return;
    }
    ghost var r1, id := lua.record, lua.stack[|lua.stack| - 1].id;
    st, updated := AssignOnTop(lua, name, ValueOf(value));
    ValueReadsBack(value);
    TableFoundStays(lua.engine, t, r1, lua.record, since, entityIndex, "GetTable", Some(id));
  }

  predicate SetterAt(record: seq<CallRecord>, i: nat, name: string, v: Value, argument: Option<Value>, ok: bool) {
    && i < |record| && record[i].callee == GetAccessor && record[i].args == [v, Str(name)]
    && if Reply(record, i) == Some(Function) && argument.Some? then
         && i + 1 < |record| && record[i + 1].callee == Named(name) && record[i + 1].args == [v, argument.value]
         && ok == record[i + 1].outcome.Returns?
       else !ok
  }

  /** A setter method was looked up on v; it was called with v and the argument exactly when it is a
      function and there is an argument, and ok tells whether that call went through. */
  ghost predicate SetterRan(record: seq<CallRecord>, since: nat, name: string, v: Value, argument: Option<Value>,
                            ok: bool)
  {
    exists i :: since <= i < |record| && SetterAt(record, i, name, v, argument, ok)
  }

  lemma SetterStays(r1: seq<CallRecord>, r2: seq<CallRecord>, since: nat, later: nat, name: string, v: Value,
                    argument: Option<Value>, ok: bool)
    requires r1 <= r2 && since <= later && SetterRan(r1, later, name, v, argument, ok)
    ensures SetterRan(r2, since, name, v, argument, ok)
  {
    var i :| later <= i < |r1| && SetterAt(r1, i, name, v, argument, ok);
    ReplyStays(r1, r2, i);
    assert SetterAt(r2, i, name, v, argument, ok);
  }

  /** The second half: the value looked up at position i of the record is on top. */
  method CallFetchedSetter(lua: Lua, entity: nat, name: string, argument: Option<Value>, popsOther: bool,
                           ghost s: seq<Value>, ghost i: nat)
    returns (st: Status, called: bool)
    requires lua.Valid() && lua.floor <= |s| && entity < |s| && s <= lua.stack && |lua.stack| == |s| + 1
    requires |lua.record| == i + 1 && lua.record[i].callee == GetAccessor
              && lua.record[i].args == [s[entity], Str(name)]
    requires Reply(lua.record, i) == Some(lua.stack[|s|])
    modifies lua`stack, lua`clock, lua`record, lua`faults
    ensures lua.Valid() && old(lua.record) <= lua.record && st != Raised
    ensures Asks(lua.record, |old(lua.record)|, {name})
    ensures old(lua.faults) <= lua.faults && (st != Done ==> old(lua.faults) < lua.faults)
    ensures SetterAt(lua.record, i, name, s[entity], argument, called)
    ensures called ==> argument.Some? && st == Done && EndsWith(lua.record, argument.value)
    ensures popsOther || called ==> lua.stack == s
  {
    called := false;
    if lua.stack[|lua.stack| - 1] != Function {
      if popsOther {
        lua.Pop(1);
        assert lua.stack == s;
      }
      return Done, false;
    }
    lua.Push(lua.stack[entity]);
    if argument.None? {
      lua.Pop(2);
      assert lua.stack == s;
      return Done, false;
    }
    ghost var r1 := lua.record;
    lua.Push(argument.value);
    st := CallOnTop(lua, Named(name), 2, s, [s[entity], argument.value]);
    called := st == Done;
    ReplyStays(r1, lua.record, i);
  }

  /** Fetches a method of the entity and, if it is a function, calls it with the entity and one argument
      for no results. `fetched` says whether the fetch itself went through. set_entity_pos leaves a value
      that is not a function to its guard; the other setters pop it. */
  method CallSetter(lua: Lua, entity: nat, name: string, argument: Option<Value>, popsOther: bool)
    returns (st: Status, fetched: bool, called: bool)
    requires lua.Valid() && AccessorsCompile(lua.engine) && entity < |lua.stack|
    modifies lua`stack, lua`clock, lua`record, lua`faults
    ensures lua.Valid() && old(lua.record) <= lua.record
    ensures Asks(lua.record, |old(lua.record)|, {name})
    ensures old(lua.faults) <= lua.faults && (st != Done ==> old(lua.faults) < lua.faults)
    ensures st != Raised ==> SetterRan(lua.record, |old(lua.record)|, name, old(lua.stack)[entity], argument, called)
    ensures called ==> argument.Some? && st == Done && EndsWith(lua.record, argument.value)
    ensures st != Raised && (popsOther || called || !fetched) ==> lua.stack == old(lua.stack)
    ensures st == Raised ==> !fetched
    ensures st == Thrown && argument.Some? && fetched ==> !called
  {
    ghost var s := lua.stack;
    fetched, called := false, false;
    st := GetFieldProtected(lua, entity, name);
    if st == Raised {
      return;
    }
    ghost var i, r1 := |lua.record| - 1, lua.record;
    if st == Thrown {
      assert SetterAt(lua.record, i, name, s[entity], argument, false);
      return;
    }
    fetched := true;
    st, called := CallFetchedSetter(lua, entity, name, argument, popsOther, s, i);
    AsksBoth(r1, lua.record, |old(lua.record)|, {name}, {name});
    assert {name} + {name} == {name};
  }

  /** One setter method, run on the entity that was found valid. */
  ghost predicate MethodSet(engine: Engine, t: nat, record: seq<CallRecord>, since: nat, entityIndex: int, name: string,
                            argument: Option<Value>, updated: bool)
  {
    exists v: Option<Value> ::
      && Begun(engine, t, record, since, entityIndex, v)
      && if v.None? then !updated && Asks(record, since, BEGINNING)
         else SetterRan(record, since, name, v.value, argument, updated)
  }

  /** set_entity_network_var, set_entity_pos and set_entity_health: one setter. `catches` says whether a
      C++ exception from the call counts as failure, as it does for the health only; an exception from
      fetching the method always propagates. */
  method SetThroughMethodImpl(lua: Lua, entityIndex: int, name: string, argument: Option<Value>,
                              popsOther: bool, catches: bool)
    returns (st: Status, updated: bool)
    requires lua.Valid() && AccessorsCompile(lua.engine)
    modifies lua`stack, lua`clock, lua`record, lua`faults
    ensures lua.Valid() && old(lua.record) <= lua.record
    ensures old(lua.faults) <= lua.faults && (st != Done ==> old(lua.faults) < lua.faults)
    ensures st == Done ==>
              MethodSet(lua.engine, old(lua.clock), lua.record, |old(lua.record)|, entityIndex, name, argument, updated)
    ensures st == Done && updated ==> argument.Some? && EndsWith(lua.record, argument.value)
  {
    ghost var since, t := |lua.record|, lua.clock;
    if entityIndex <= 0 {
      NothingFound(lua.engine, t, lua.record, entityIndex, name);
      return Done, false;
    }
    st, updated := PushValidEntity(lua, entityIndex);
    if st != Done || !updated {
      return;
    }
    ghost var r1, v := lua.record, lua.stack[|lua.stack| - 1];
    var fetched;
    st, fetched, updated := CallSetter(lua, |lua.stack| - 1, name, argument, popsOther);
    if st == Raised {
      return;
    }
    BegunStays(lua.engine, t, r1, lua.record, since, entityIndex, Some(v));
    SetterStays(lua.record, lua.record, since, |r1|, name, v, argument, updated);
    if st == Thrown && fetched && catches {
      return Done, false;
    }
  }

  /** Where SetAngles went through, nothing but it and what was asked before has been asked. */
  ghost predicate AnglesRan(record: seq<CallRecord>, since: nat, v: Value, angle: Value, before: set<string>,
                            updated: bool)
  {
    || (updated && SetterRan(record, since, "SetAngles", v, Some(angle), true)
        && Asks(record, since, before + {"SetAngles"}))
    || (SetterRan(record, since, "SetAngles", v, Some(angle), false)
        && SetterRan(record, since, "SetEyeAngles", v, Some(angle), updated))
  }

  /** SetAngles, and SetEyeAngles when the first is missing or raises. */
  ghost predicate AnglesSet(engine: Engine, t: nat, record: seq<CallRecord>, since: nat, entityIndex: int, angle: Value,
                            updated: bool)
  {
    exists v: Option<Value> ::
      && Begun(engine, t, record, since, entityIndex, v)
      && if v.None? then !updated && Asks(record, since, BEGINNING)
         else AnglesRan(record, since, v.value, angle, BEGINNING, updated)
  }

  lemma AnglesStay(r1: seq<CallRecord>, record: seq<CallRecord>, since: nat, v: Value, angle: Value, updated: bool)
    requires r1 <= record && since <= |r1| && Asks(r1, since, BEGINNING)
              && AnglesRan(record, |r1|, v, angle, {}, updated)
    ensures AnglesRan(record, since, v, angle, BEGINNING, updated)
  {
    var later := |r1|;
    if updated && SetterRan(record, later, "SetAngles", v, Some(angle), true)
        && Asks(record, later, {} + {"SetAngles"}) {
      SetterStays(record, record, since, later, "SetAngles", v, Some(angle), true);
      AsksBoth(r1, record, since, BEGINNING, {} + {"SetAngles"});
      assert BEGINNING + ({} + {"SetAngles"}) == BEGINNING + {"SetAngles"};
    } else {
      SetterStays(record, record, since, later, "SetAngles", v, Some(angle), false);
      SetterStays(record, record, since, later, "SetEyeAngles", v, Some(angle), updated);
    }
  }

  method RunAngleSetters(lua: Lua, entity: nat, angle: Value) returns (st: Status, updated: bool)
    requires lua.Valid() && AccessorsCompile(lua.engine) && entity < |lua.stack|
    modifies lua`stack, lua`clock, lua`record, lua`faults
    ensures lua.Valid() && old(lua.record) <= lua.record
    ensures old(lua.faults) <= lua.faults && (st != Done ==> old(lua.faults) < lua.faults)
    ensures st == Done ==> AnglesRan(lua.record, |old(lua.record)|, old(lua.stack)[entity], angle, {}, updated)
    ensures st != Thrown
  {
    ghost var since, v := |lua.record|, lua.stack[entity];
    var fetched;
    st, fetched, updated := CallSetter(lua, entity, "SetAngles", Some(angle), true);
    if st == Raised || updated {
      assert {} + {"SetAngles"} == {"SetAngles"};
      return;
    }
    ghost var r1 := lua.record;
    st, fetched, updated := CallSetter(lua, entity, "SetEyeAngles", Some(angle), true);
    if st == Raised {
      return;
    }
    SetterStays(r1, lua.record, since, since, "SetAngles", v, Some(angle), false);
    SetterStays(lua.record, lua.record, since, |r1|, "SetEyeAngles", v, Some(angle), updated);
    st := Done;
  }

  method SetEntityAnglesImpl(lua: Lua, entityIndex: int, angle: Value) returns (st: Status, updated: bool)
    requires lua.Valid() && AccessorsCompile(lua.engine)
    modifies lua`stack, lua`clock, lua`record, lua`faults
    ensures lua.Valid() && old(lua.record) <= lua.record
    ensures old(lua.faults) <= lua.faults && (st != Done ==> old(lua.faults) < lua.faults)
    ensures st == Done ==> AnglesSet(lua.engine, old(lua.clock), lua.record, |old(lua.record)|, entityIndex,
              angle, updated)
  {
    ghost var since, t := |lua.record|, lua.clock;
    if entityIndex <= 0 {
      NothingFound(lua.engine, t, lua.record, entityIndex, "SetAngles");
      return Done, false;
    }
    st, updated := PushValidEntity(lua, entityIndex);
    if st != Done || !updated {
      return;
    }
    ghost var r1, v := lua.record, lua.stack[|lua.stack| - 1];
    st, updated := RunAngleSetters(lua, |lua.stack| - 1, angle);
    if st == Done {
      BegunStays(lua.engine, t, r1, lua.record, since, entityIndex, Some(v));
      AnglesStay(r1, lua.record, since, v, angle, updated);
    }
  }

  // ---------- the public operations ----------

  /** The caller sees the stack, the floor and the open frames exactly as before. */
  twostate predicate Restored(lua: Lua)
    reads lua
  {
    && lua.Valid() && lua.stack == old(lua.stack) && lua.floor == old(lua.floor) && lua.callers == old(lua.callers)
    && old(lua.record) <= lua.record
  }

  /** The fast path or the scan, in a frame of its own. */
  method ListInFrame(lua: Lua, offset: nat, limit: nat, filterId: int, filterClass: string)
    returns (st: Status, entities: seq<Summary>, total: nat, ghost seen: seq<Summary>)
    requires lua.Valid() && AccessorsCompile(lua.engine)
    modifies lua
    ensures Restored(lua) && (st != Done ==> st == Thrown && entities == [] && old(lua.faults) < lua.faults)
    ensures st == Done ==>
              && entities == Slice(Matching(seen, filterClass), offset, limit)
              && total == |Matching(seen, filterClass)|
              && Listed(lua.engine, old(lua.clock), lua.record, |old(lua.record)|, filterId, seen)
  {
    ghost var floor := lua.floor;
    lua.EnterFrame();
    if filterId > 0 {
      st, entities, total, seen := FindEntity(lua, offset, limit, filterId, filterClass);
    } else {
      st, entities, total, seen := ScanEntities(lua, offset, limit, filterClass);
    }
    st := lua.LeaveFrame(st, floor);
    if st != Done {
      entities := [];
    }
  }

  /** The query object; without a Lua interface every operation answers with its default. */
  class Query {
    const lua: Lua?
    var lastTotal: int

    constructor (lua: Lua?)
      ensures this.lua == lua && lastTotal == 0
    {
      this.lua, lastTotal := lua, 0;
    }

    ghost predicate Ready()
      reads this, if lua == null then {} else {lua}
    {
      lua == null || (lua.Valid() && AccessorsCompile(lua.engine))
    }

    /** Main result: the page and the total are those of the matching summaries, and the stack is restored. */
    method ListEntities(offset: int, limit: int, filterId: int, filterClass: string)
      returns (st: Status, entities: seq<Summary>, ghost seen: seq<Summary>)
      requires Ready()
      modifies this`lastTotal, if lua == null then {} else {lua}
      ensures lua != null ==> Restored(lua)
      ensures st != Done ==> lua != null && st == Thrown && old(lua.faults) < lua.faults
      ensures st == Done && lua != null && limit >= 0 ==>
                && entities == Slice(Matching(seen, filterClass), if offset < 0 then 0
                    else offset, Min(limit, MAX_PAGE_LIMIT))
                && lastTotal == |Matching(seen, filterClass)|
                && Listed(lua.engine, old(lua.clock), lua.record, |old(lua.record)|, filterId, seen)
      ensures lua == null || limit < 0 || st != Done ==> entities == [] && lastTotal == 0
      ensures st == Done && lua != null && limit >= 0 ==>
                && (forall s :: s in entities ==> s in seen && Holds(s.className, filterClass))
                && lastTotal == |Hits(seen, filterClass)|
    {
      lastTotal := 0;
      entities, seen := [], [];
      if lua == null || limit < 0 {
        return Done, entities, seen;
      }
      var offset, limit := if offset < 0 then 0 else offset, if limit > MAX_PAGE_LIMIT then MAX_PAGE_LIMIT else limit;
      var total;
      st, entities, total, seen := ListInFrame(lua, offset, limit, filterId, filterClass);
      if st == Done {
        MatchingMeans(seen, filterClass);
        lastTotal := total;
      }
    }

    method GetEntityDetail(entityIndex: int) returns (st: Status, detail: Detail)
      requires Ready()
      modifies if lua == null then {} else {lua}
      ensures lua != null ==> Restored(lua)
      ensures st != Done ==> lua != null && st == Thrown && old(lua.faults) < lua.faults
      ensures lua != null && st == Done ==>
                DetailAnswers(lua.engine, old(lua.clock), lua.record, |old(lua.record)|, entityIndex, detail)
      ensures lua == null ==> detail == NotFound(entityIndex)
    {
      if lua == null {
        return Done, NotFound(entityIndex);
      }
      ghost var floor := lua.floor;
      lua.EnterFrame();
      st, detail := GetEntityDetailImpl(lua, entityIndex);
      st := lua.LeaveFrame(st, floor);
    }

    method GetEntries(entityIndex: int, name: string, filter: string) returns (st: Status, entries: seq<Entry>)
      requires Ready()
      modifies if lua == null then {} else {lua}
      ensures lua != null ==> Restored(lua)
      ensures st != Done ==> lua != null && st == Thrown && old(lua.faults) < lua.faults
      ensures lua != null && st == Done ==>
                EntriesAnswer(lua.engine, old(lua.clock), lua.record, |old(lua.record)|, entityIndex, name,
                    filter, entries)
      ensures lua == null ==> entries == []
    {
      if lua == null {
        return Done, [];
      }
      ghost var floor := lua.floor;
      lua.EnterFrame();
      st, entries := GetEntriesImpl(lua, entityIndex, name, filter);
      st := lua.LeaveFrame(st, floor);
    }

    method GetEntityTableEntries(entityIndex: int, filter: string) returns (st: Status, entries: seq<Entry>)
      requires Ready()
      modifies if lua == null then {} else {lua}
      ensures lua != null ==> Restored(lua)
      ensures st != Done ==> lua != null && st == Thrown && old(lua.faults) < lua.faults
      ensures lua != null && st == Done ==>
                EntriesAnswer(lua.engine, old(lua.clock), lua.record, |old(lua.record)|, entityIndex, "GetTable",
                    filter, entries)
    {
      st, entries := GetEntries(entityIndex, "GetTable", filter);
    }

    method GetEntityNetworkVarEntries(entityIndex: int) returns (st: Status, entries: seq<Entry>)
      requires Ready()
      modifies if lua == null then {} else {lua}
      ensures lua != null ==> Restored(lua)
      ensures st != Done ==> lua != null && st == Thrown && old(lua.faults) < lua.faults
      ensures lua != null && st == Done ==>
                EntriesAnswer(lua.engine, old(lua.clock), lua.record, |old(lua.record)|, entityIndex,
                    "GetNetworkVars", "", entries)
    {
      st, entries := GetEntries(entityIndex, "GetNetworkVars", "");
    }

    method SetEntityField(entityIndex: int, name: string, value: Json) returns (st: Status, updated: bool)
      requires Ready()
      modifies if lua == null then {} else {lua}
      ensures lua != null ==> Restored(lua)
      ensures st != Done ==> lua != null && st == Thrown && old(lua.faults) < lua.faults
      ensures lua == null ==> !updated
      ensures lua != null && st == Done ==> FieldSet(lua.engine, old(lua.clock), lua.record, |old(lua.record)|,
                entityIndex, name, PrimitiveOf(value), updated)
      ensures st == Done && updated ==> lua != null && LastArgumentIs(lua.record, value)
    {
      if lua == null {
        return Done, false;
      }
      ghost var floor := lua.floor;
      lua.EnterFrame();
      st, updated := SetEntityFieldImpl(lua, entityIndex, name, value);
      st := lua.LeaveFrame(st, floor);
    }

    method SetEntityTableField(entityIndex: int, name: string, value: Json) returns (st: Status, updated: bool)
      requires Ready()
      modifies if lua == null then {} else {lua}
      ensures lua != null ==> Restored(lua)
      ensures st != Done ==> lua != null && st == Thrown && old(lua.faults) < lua.faults
      ensures lua == null ==> !updated
      ensures lua != null && st == Done ==> TableFieldSet(lua.engine, old(lua.clock), lua.record,
                |old(lua.record)|, entityIndex, name, ValueOf(value), updated)
      ensures st == Done && updated ==> lua != null && LastArgumentIs(lua.record, value)
    {
      if lua == null {
        return Done, false;
      }
      ghost var floor := lua.floor;
      lua.EnterFrame();
      st, updated := SetEntityTableFieldImpl(lua, entityIndex, name, value);
      st := lua.LeaveFrame(st, floor);
    }

    method SetThroughMethod(entityIndex: int, name: string, argument: Option<Value>, popsOther: bool, catches: bool)
      returns (st: Status, updated: bool)
      requires Ready()
      modifies if lua == null then {} else {lua}
      ensures lua != null ==> Restored(lua)
      ensures st != Done ==> lua != null && st == Thrown && old(lua.faults) < lua.faults
      ensures lua == null ==> !updated
      ensures lua != null && st == Done ==> MethodSet(lua.engine, old(lua.clock), lua.record, |old(lua.record)|,
                entityIndex, name, argument, updated)
      ensures st == Done && updated ==> lua != null && argument.Some? && EndsWith(lua.record, argument.value)
    {
      if lua == null {
        return Done, false;
      }
      ghost var floor := lua.floor;
      lua.EnterFrame();
      st, updated := SetThroughMethodImpl(lua, entityIndex, name, argument, popsOther, catches);
      st := lua.LeaveFrame(st, floor);
    }

    method SetEntityNetworkVar(entityIndex: int, name: string, value: Json) returns (st: Status, updated: bool)
      requires Ready()
      modifies if lua == null then {} else {lua}
      ensures lua != null ==> Restored(lua)
      ensures st != Done ==> lua != null && st == Thrown && old(lua.faults) < lua.faults
      ensures lua == null || !IsValidFieldName(name) ==> !updated
      ensures lua != null && IsValidFieldName(name) && st == Done ==>
                MethodSet(lua.engine, old(lua.clock), lua.record, |old(lua.record)|, entityIndex, "Set" + name,
                    ValueOf(value), updated)
      ensures st == Done && updated ==> lua != null && LastArgumentIs(lua.record, value)
    {
      if !IsValidFieldName(name) {
        return Done, false;
      }
      st, updated := SetThroughMethod(entityIndex, "Set" + name, ValueOf(value), true, false);
      ValueReadsBack(value);
    }

    method SetEntityPos(entityIndex: int, x: Number, y: Number, z: Number) returns (st: Status, updated: bool)
      requires Ready()
      modifies if lua == null then {} else {lua}
      ensures lua != null ==> Restored(lua)
      ensures st != Done ==> lua != null && st == Thrown && old(lua.faults) < lua.faults
      ensures lua == null || !Finite(x, y, z) ==> !updated
      ensures lua != null && Finite(x, y, z) && st == Done ==>
                MethodSet(lua.engine, old(lua.clock), lua.record, |old(lua.record)|, entityIndex, "SetPos",
                    Some(Vector(x, y, z)), updated)
    {
      if !Finite(x, y, z) {
        return Done, false;
      }
      st, updated := SetThroughMethod(entityIndex, "SetPos", Some(Vector(x, y, z)), false, false);
    }

    method SetEntityHealth(entityIndex: int, health: Number) returns (st: Status, updated: bool)
      requires Ready()
      modifies if lua == null then {} else {lua}
      ensures lua != null ==> Restored(lua)
      ensures st != Done ==> lua != null && st == Thrown && old(lua.faults) < lua.faults
      ensures lua == null || health.NonFinite? ==> !updated
      ensures lua != null && health.Millionths? && st == Done ==>
                MethodSet(lua.engine, old(lua.clock), lua.record, |old(lua.record)|, entityIndex, "SetHealth",
                    Some(Num(health)), updated)
    {
      if health.NonFinite? {
        return Done, false;
      }
      st, updated := SetThroughMethod(entityIndex, "SetHealth", Some(Num(health)), true, true);
    }

    method SetEntityAngles(entityIndex: int, pitch: Number, yaw: Number, roll: Number)
      returns (st: Status, updated: bool)
      requires Ready()
      modifies if lua == null then {} else {lua}
      ensures lua != null ==> Restored(lua)
      ensures st != Done ==> lua != null && st == Thrown && old(lua.faults) < lua.faults
      ensures lua == null || !Finite(pitch, yaw, roll) ==> !updated
      ensures lua != null && Finite(pitch, yaw, roll) && st == Done ==>
                AnglesSet(lua.engine, old(lua.clock), lua.record, |old(lua.record)|, entityIndex,
                    Angle(pitch, yaw, roll), updated)
    {
      if lua == null || !Finite(pitch, yaw, roll) {
        return Done, false;
      }
      ghost var floor := lua.floor;
      lua.EnterFrame();
      st, updated := SetEntityAnglesImpl(lua, entityIndex, Angle(pitch, yaw, roll));
      st := lua.LeaveFrame(st, floor);
    }
  }
}
