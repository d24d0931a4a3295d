/** EntityQuery: every helper on the shared Lua stack, its net effect on each outcome, and the walks. */
module EntityQuery {
  import opened Text
  import opened NumberFormat
  import opened LuaStack
  import Paging

  const MAX_TABLE_ENTRIES := 2048

  // ---------- results ----------

  datatype Json =
    | JNull
    | JBool(b: bool)
    | JNumber(n: Number)
    | JString(s: string)
    | JArray(items: seq<Json>)
    | JObject

  datatype Summary = Summary(index: Number, className: string, model: string, valid: bool,
                             pos: (Number, Number, Number), angles: (Number, Number, Number))

  const ZERO3 := (Millionths(0), Millionths(0), Millionths(0))
  const EMPTY_SUMMARY := Summary(Millionths(0), "", "", false, ZERO3, ZERO3)

  datatype Detail =
    | NotFound(index: int)
    | Detail(summary: Summary, parent: Option<Number>, health: Option<Number>)

  datatype Entry = Entry(key: string, display: string, editable: bool, value: Option<Json>)

  // ---------- the accessor chunks ----------

  /** What fetching an accessor chunk at a given time leads to: it is cached in the registry or compiles;
      compiling raises; or an unprotected field access raises. */
  datatype ChunkFate = Ready | CompileRaises | FetchFails

  function ChunkName(callee: Callee): string {
    if callee == GetAccessor then "gm_rdb.get_field" else "gm_rdb.set_field"
  }

  function ChunkFateAt(engine: Engine, callee: Callee, t: nat): ChunkFate {
    match engine.field(Registry(ChunkName(callee)), t)
    case FetchRaises => FetchFails
    case Gives(v) =>
      if v == Function then Ready
      else match engine.field(Global("CompileString"), t + 1)
        case FetchRaises => FetchFails
        case Gives(_) => if engine.call(CompileString, t + 2).Returns? then Ready else CompileRaises
  }

  /** An accessor is fetched under its own registry name: what is cached there is used as it is, and what cannot be
      fetched from there fails. */
  lemma AccessorsHaveNames(engine: Engine, t: nat)
    ensures engine.field(Registry("gm_rdb.get_field"), t).FetchRaises? ==>
              ChunkFateAt(engine, GetAccessor, t) == FetchFails
    ensures engine.field(Registry("gm_rdb.set_field"), t).FetchRaises? ==>
              ChunkFateAt(engine, SetAccessor, t) == FetchFails
    ensures engine.field(Registry("gm_rdb.get_field"), t) == Gives(Function) ==>
              ChunkFateAt(engine, GetAccessor, t) == Ready
    ensures engine.field(Registry("gm_rdb.set_field"), t) == Gives(Function) ==>
              ChunkFateAt(engine, SetAccessor, t) == Ready
  {
  }

  /** The assumption under which the helpers are stack-neutral. */
  ghost predicate AccessorsCompile(engine: Engine) {
    forall callee, t :: ChunkFateAt(engine, callee, t) != CompileRaises
  }

  // ---------- table entries ----------

  function BoolText(b: bool): string {
    if b then "true" else "false"
  }

  function NumberText(n: Number): string {
    if n.NonFinite? then "nan" else TextOf(n.m)
  }

  function Vec3Text(x: Number, y: Number, z: Number): string {
    "[" + NumberText(x) + ", " + NumberText(y) + ", " + NumberText(z) + "]"
  }

  function DisplayOf(v: Value): string {
    match v
    case Num(n) => NumberText(n)
    case Str(s) => CString(s)
    case Bool(b) => BoolText(b)
    case Vector(x, y, z) => Vec3Text(x, y, z)
    case Angle(x, y, z) => Vec3Text(x, y, z)
    case Entity(_) => "<entity>"
    case Nil => "nil"
    case Table(_) => "<table>"
    case Function => "<function>"
    case Userdata => "<userdata>"
    case Thread => "<thread>"
    case Other(name) => "<" + name + ">"
  }

  function Editable(v: Value): bool {
    v.Str? || v.Bool? || (v.Num? && v.n.Millionths?)
  }

  /** Only string and number keys have a text; an empty text skips the pair. */
  function KeyText(key: Value): string {
    if key.Str? then CString(key.s) else if key.Num? then NumberText(key.n) else ""
  }

  /** The JSON value of a string, a number, a bool or a vector. */
  function JsonOf(v: Value): Json {
    match v
    case Str(s) => JString(CString(s))
    case Num(n) => JNumber(n)
    case Bool(b) => JBool(b)
    case Vector(x, y, z) => JArray([JNumber(x), JNumber(y), JNumber(z)])
    case _ => JNull
  }

  function EntryOf(key: string, v: Value, filter: string): Option<Entry> {
    if filter != "" && !Paging.ContainsCaseInsensitive(key, filter)
                    && !Paging.ContainsCaseInsensitive(DisplayOf(v), filter) then None
    else Some(Entry(key, DisplayOf(v), Editable(v), if Editable(v) then Some(JsonOf(v)) else None))
  }

  // The independent reading of an entry.

  /** The text of a number: a decimal parser reads it back, unless it is not finite. */
  predicate Shows(text: string, n: Number) {
    if n.NonFinite? then text == "nan" else Parse(text) == Some(n.m)
  }

  /** Three numbers in brackets, in order. */
  ghost predicate ShowsThree(text: string, x: Number, y: Number, z: Number) {
    exists tx, ty, tz :: text == "[" + tx + ", " + ty + ", " + tz + "]" && Shows(tx, x) && Shows(ty, y) && Shows(tz, z)
  }

  lemma NumberTextShows(n: Number)
    ensures Shows(NumberText(n), n)
  {
    if n.Millionths? {
      ParseUndoesFormat(n.m);
    }
  }

  /** The name Lua has for the type of a value without a text of its own. */
  function TypeName(v: Value): string {
    match v
    case Entity(_) => "entity"
    case Table(_) => "table"
    case Function => "function"
    case Userdata => "userdata"
    case Thread => "thread"
    case Other(name) => name
    case _ => ""
  }

  lemma TypesShown(v: Value)
    ensures v.Nil? ==> DisplayOf(v) == "nil"
    ensures v.Entity? || v.Table? || v.Function? || v.Userdata? || v.Thread? || v.Other? ==>
              DisplayOf(v) == "<" + TypeName(v) + ">"
  {
  }

  /** What is displayed: numbers and vectors so that they can be read back, strings without a NUL as they are,
      bools as true and false, and the other kinds by the name of their type. */
  lemma DisplayMeans(v: Value)
    ensures v.Num? ==> Shows(DisplayOf(v), v.n)
    ensures v.Vector? || v.Angle? ==> ShowsThree(DisplayOf(v), v.x, v.y, v.z)
    ensures v.Str? && '\0' !in v.s ==> DisplayOf(v) == v.s
    ensures v.Bool? ==> (DisplayOf(v) == "true" <==> v.b) && (DisplayOf(v) == "false" <==> !v.b)
    ensures v.Nil? ==> DisplayOf(v) == "nil"
    ensures v.Entity? || v.Table? || v.Function? || v.Userdata? || v.Thread? || v.Other? ==>
              DisplayOf(v) == "<" + TypeName(v) + ">"
  {
    TypesShown(v);
    if v.Num? {
      NumberTextShows(v.n);
    } else if v.Vector? || v.Angle? {
      NumberTextShows(v.x);
      NumberTextShows(v.y);
      NumberTextShows(v.z);
    } else if v.Str? {
      CStringMeans(v.s);
    }
  }

  /** Main result: a value is listed exactly when its key or its display holds the filter, under its key and
      display, and with a raw value exactly when it is a string, a bool or a finite number. */
  lemma EntryMeans(key: string, v: Value, filter: string)
    ensures var e := EntryOf(key, v, filter);
            && (e.Some? <==> Paging.Holds(key, filter) || Paging.Holds(DisplayOf(v), filter))
            && (e.Some? ==> && e.value.key == key && e.value.display == DisplayOf(v)
                            && e.value.editable == e.value.value.Some?
                            && (e.value.editable <==> v.Str? || v.Bool? || (v.Num? && v.n.Millionths?))
                            && (e.value.editable ==> e.value.value == Some(JsonOf(v))))
  {
    Paging.ContainsMeans(key, filter);
    Paging.ContainsMeans(DisplayOf(v), filter);
    if filter == "" {
      assert Paging.ContainsCaseInsensitive(key, filter);
    }
  }

  /** A key has a text only if it is a number, or a string that does not start with a NUL. */
  lemma KeyMeans(key: Value)
    ensures key.Num? ==> Shows(KeyText(key), key.n)
    ensures key.Str? && '\0' !in key.s ==> KeyText(key) == key.s
    ensures !key.Num? && !key.Str? ==> KeyText(key) == ""
  {
    if key.Num? {
      NumberTextShows(key.n);
    } else if key.Str? {
      CStringMeans(key.s);
    }
  }

  /** What one pair contributes: nothing without a key text or when the filter rejects it. */
  function EntryOfPair(pair: (Value, Value), filter: string): Option<Entry> {
    if KeyText(pair.0) == "" then None else EntryOf(KeyText(pair.0), pair.1, filter)
  }

  function AsList(entry: Option<Entry>): seq<Entry> {
    if entry.Some? then [entry.value] else []
  }

  /** The entries of all pairs that have a key text and pass the filter, in iteration order. */
  function EntriesOf(pairs: seq<(Value, Value)>, filter: string): seq<Entry> {
    if pairs == [] then []
    else EntriesOf(pairs[..|pairs| - 1], filter) + AsList(EntryOfPair(pairs[|pairs| - 1], filter))
  }

  lemma EntriesGrow(pairs: seq<(Value, Value)>, i: nat, filter: string)
    requires i < |pairs|
    ensures EntriesOf(pairs[..i + 1], filter) == EntriesOf(pairs[..i], filter) + AsList(EntryOfPair(pairs[i], filter))
  {
    assert pairs[..i + 1][..i] == pairs[..i];
  }

  lemma {:induction false} EntriesPrefix(pairs: seq<(Value, Value)>, i: nat, filter: string)
    requires i <= |pairs|
    ensures EntriesOf(pairs[..i], filter) <= EntriesOf(pairs, filter)
    decreases |pairs| - i
  {
    if i < |pairs| {
      EntriesGrow(pairs, i, filter);
      EntriesPrefix(pairs, i + 1, filter);
    } else {
      assert pairs[..i] == pairs;
    }
  }

  /** The pair has a key text, and that or the display of its value holds the filter. */
  ghost predicate Shown(pair: (Value, Value), filter: string) {
    KeyText(pair.0) != "" && (Paging.Holds(KeyText(pair.0), filter) || Paging.Holds(DisplayOf(pair.1), filter))
  }

  ghost function ShownAmong(pairs: seq<(Value, Value)>, filter: string): nat {
    if pairs == [] then 0
    else ShownAmong(pairs[..|pairs| - 1], filter) + One(Shown(pairs[|pairs| - 1], filter))
  }

  lemma PairMeans(pair: (Value, Value), filter: string)
    ensures |AsList(EntryOfPair(pair, filter))| == One(Shown(pair, filter))
    ensures Shown(pair, filter) ==>
              var e := AsList(EntryOfPair(pair, filter))[0]; e.key == KeyText(pair.0) && e.display == DisplayOf(pair.1)
  {
    EntryMeans(KeyText(pair.0), pair.1, filter);
  }

  lemma {:induction false} EntriesCounted(pairs: seq<(Value, Value)>, filter: string)
    ensures |EntriesOf(pairs, filter)| == ShownAmong(pairs, filter)
  {
    if pairs != [] {
      EntriesCounted(pairs[..|pairs| - 1], filter);
      PairMeans(pairs[|pairs| - 1], filter);
    }
  }

  /** Main result: the entries are those of the pairs to be shown, each with its own key and display, at the
      place given by the number of such pairs before it. */
  lemma EntriesMean(pairs: seq<(Value, Value)>, filter: string, k: nat)
    requires k < |pairs|
    ensures |EntriesOf(pairs, filter)| == ShownAmong(pairs, filter)
    ensures var place := ShownAmong(pairs[..k], filter);
            Shown(pairs[k], filter) ==>
              && place < |EntriesOf(pairs, filter)|
              && EntriesOf(pairs, filter)[place].key == KeyText(pairs[k].0)
              && EntriesOf(pairs, filter)[place].display == DisplayOf(pairs[k].1)
  {
    EntriesCounted(pairs, filter);
    EntriesCounted(pairs[..k], filter);
    EntriesGrow(pairs, k, filter);
    EntriesPrefix(pairs, k + 1, filter);
    PairMeans(pairs[k], filter);
  }

  /** The first `limit` entries. */
  function FirstEntries(pairs: seq<(Value, Value)>, filter: string, limit: nat): seq<Entry> {
    EntriesOf(pairs, filter)[..Paging.Min(limit, |EntriesOf(pairs, filter)|)]
  }

  // ---------- what is asked ----------

  predicate AsksFor(r: CallRecord, names: set<string>) {
    match r.callee
    case CompileString => true
    case GetAccessor => |r.args| == 2 && r.args[1].Str? && r.args[1].s in names
    case SetAccessor => false
    case Named(name) => name in names
  }

  /** Since a position of the record, only these methods and library functions were looked up or called, and
      nothing was assigned. */
  ghost predicate Asks(record: seq<CallRecord>, since: nat, names: set<string>) {
    forall j :: since <= j < |record| ==> AsksFor(record[j], names)
  }

  lemma AsksMeans(record: seq<CallRecord>, since: nat, names: set<string>, j: nat)
    requires Asks(record, since, names) && since <= j < |record|
    ensures record[j].callee != SetAccessor
    ensures record[j].callee.Named? ==> record[j].callee.name in names
    ensures record[j].callee == GetAccessor ==>
              |record[j].args| == 2 && record[j].args[1].Str? && record[j].args[1].s in names
  {
    assert AsksFor(record[j], names);
  }

  lemma AsksBoth(r1: seq<CallRecord>, r2: seq<CallRecord>, since: nat, first: set<string>, second: set<string>)
    requires r1 <= r2 && since <= |r1| && Asks(r1, since, first) && Asks(r2, |r1|, second)
    ensures Asks(r2, since, first + second)
  {
    forall j | since <= j < |r2| ensures AsksFor(r2[j], first + second) {
      if j < |r1| {
        assert r2[j] == r1[j];
      }
    }
  }

  // ---------- protected access ----------

  method PcallChecked(lua: Lua, callee: Callee, args: nat, results: nat) returns (st: Status)
    requires lua.Valid() && lua.floor + args + 1 <= |lua.stack|
    modifies lua`stack, lua`clock, lua`record, lua`faults
    ensures lua.Valid() && lua.clock == old(lua.clock) + 1
    ensures old(lua.faults) <= lua.faults && (st != Done ==> old(lua.faults) < lua.faults)
    ensures lua.record == old(lua.record)
              + [CallRecord(callee, old(lua.stack)[|old(lua.stack)| - args..], lua.engine.call(callee, old(lua.clock)))]
    ensures var rest := old(lua.stack)[..|old(lua.stack)| - args - 1];
            match lua.engine.call(callee, old(lua.clock))
            case Returns(values) => st == Done && lua.stack == rest + Adjust(values, results)
            case Raises(_) => st == Thrown && lua.stack == rest
  {
    var ok := lua.PCall(callee, args, results);
    if ok {
      return Done;
    }
    lua.Pop(1);
    return Thrown;
  }

  /** The last protected call had this callee and these arguments, and ended this way. */
  predicate MadeCall(record: seq<CallRecord>, callee: Callee, args: seq<Value>, ok: bool) {
    record != [] && record[|record| - 1].callee == callee && record[|record| - 1].args == args
    && record[|record| - 1].outcome.Returns? == ok
  }

  /** A checked call without results of the function that lies, with its arguments, on top of s. */
  method CallOnTop(lua: Lua, callee: Callee, n: nat, ghost s: seq<Value>, ghost args: seq<Value>) returns (st: Status)
    requires lua.Valid() && lua.floor <= |s| && |lua.stack| == |s| + 1 + n && |args| == n
    requires s <= lua.stack && lua.stack[|s| + 1..] == args
    modifies lua`stack, lua`clock, lua`record, lua`faults
    ensures lua.Valid() && old(lua.record) <= lua.record && lua.stack == s && |lua.record| == |old(lua.record)| + 1
    ensures old(lua.faults) <= lua.faults && (st != Done ==> old(lua.faults) < lua.faults)
    ensures st != Raised && MadeCall(lua.record, callee, args, st == Done)
  {
    assert lua.stack[..|lua.stack| - n - 1] == s && lua.stack[|lua.stack| - n..] == args;
    st := PcallChecked(lua, callee, n, 0);
  }

  /** A checked call for one result of the function that lies, with its arguments, on top of s. */
  method CallForOne(lua: Lua, callee: Callee, n: nat, ghost s: seq<Value>, ghost args: seq<Value>,
                    ghost names: set<string>)
    returns (st: Status)
    requires lua.Valid() && lua.floor <= |s| && |lua.stack| == |s| + 1 + n && |args| == n
    requires s <= lua.stack && lua.stack[|s| + 1..] == args
    requires AsksFor(CallRecord(callee, args, Returns([])), names)
    modifies lua`stack, lua`clock, lua`record, lua`faults
    ensures lua.Valid() && old(lua.record) <= lua.record && |lua.record| == |old(lua.record)| + 1
    ensures Asks(lua.record, |old(lua.record)|, names)
    ensures old(lua.faults) <= lua.faults && (st != Done ==> old(lua.faults) < lua.faults)
    ensures st != Raised && MadeCall(lua.record, callee, args, st == Done)
    ensures if st == Done then s <= lua.stack && |lua.stack| == |s| + 1 else lua.stack == s
    ensures Reply(lua.record, |lua.record| - 1) == if st == Done then Some(lua.stack[|lua.stack| - 1]) else None
  {
    assert lua.stack[..|lua.stack| - n - 1] == s && lua.stack[|lua.stack| - n..] == args;
    st := PcallChecked(lua, callee, n, 1);
    assert st == Done ==> lua.stack[|s|..] == [lua.stack[|lua.stack| - 1]];
  }

  /** The part of push_registry_chunk that runs when the chunk is not cached: compile it and push it.
      Push(-1) followed by SetField(-3, name) leaves the stack as it was. */
  method CompileChunk(lua: Lua, callee: Callee) returns (st: Status)
    requires lua.Valid()
    modifies lua`stack, lua`clock, lua`record, lua`faults
    ensures lua.Valid() && old(lua.record) <= lua.record
    ensures Asks(lua.record, |old(lua.record)|, {})
    ensures old(lua.faults) <= lua.faults && (st != Done ==> old(lua.faults) < lua.faults)
    ensures match lua.engine.field(Global("CompileString"), old(lua.clock))
            case FetchRaises => st == Raised
            case Gives(_) =>
              if lua.engine.call(CompileString, old(lua.clock) + 1).Returns?
              then st == Done && |lua.stack| == |old(lua.stack)| + 1 && old(lua.stack) <= lua.stack
              else st == Thrown && lua.stack == old(lua.stack)
  {
    ghost var s := lua.stack;
    lua.Push(GLOBAL_TABLE);
    st := lua.GetField(Global("CompileString"));
    if st == Raised {
      return;
    }
    lua.RemoveBelowTop();
    lua.Push(Str("code"));
    lua.Push(Str(ChunkName(callee)));
    assert lua.stack[..|lua.stack| - 3] == s;
    st := PcallChecked(lua, CompileString, 2, 1);
  }

  /** Pushes the accessor chunk. When compiling it raises, the registry table stays behind. */
  method PushRegistryChunk(lua: Lua, callee: Callee) returns (st: Status)
    requires lua.Valid()
    modifies lua`stack, lua`clock, lua`record, lua`faults
    ensures lua.Valid() && old(lua.record) <= lua.record
    ensures Asks(lua.record, |old(lua.record)|, {})
    ensures old(lua.faults) <= lua.faults && (st != Done ==> old(lua.faults) < lua.faults)
    ensures match ChunkFateAt(lua.engine, callee, old(lua.clock))
            case Ready => st == Done && |lua.stack| == |old(lua.stack)| + 1 && old(lua.stack) <= lua.stack
            case CompileRaises => st == Thrown && lua.stack == old(lua.stack) + [REGISTRY_TABLE]
            case FetchFails => st == Raised
  {
    ghost var s := lua.stack;
    lua.Push(REGISTRY_TABLE);
    st := lua.GetField(Registry(ChunkName(callee)));
    if st == Raised {
      return;
    }
    if lua.stack[|lua.stack| - 1] != Function {
      lua.Pop(1);
      assert lua.stack == s + [REGISTRY_TABLE];
      st := CompileChunk(lua, callee);
      if st != Done {
        return;
      }
    }
    lua.RemoveBelowTop();
    assert lua.stack[..|s|] == s;
  }

  /** Pushes t[key], where t is the value at `index`; the engine sees exactly (t, key). */
  method GetFieldProtected(lua: Lua, index: nat, key: string) returns (st: Status)
    requires lua.Valid() && index < |lua.stack|
    modifies lua`stack, lua`clock, lua`record, lua`faults
    ensures lua.Valid() && old(lua.record) <= lua.record
    ensures Asks(lua.record, |old(lua.record)|, {key})
    ensures old(lua.faults) <= lua.faults && (st != Done ==> old(lua.faults) < lua.faults)
    ensures st == Done ==> |lua.stack| == |old(lua.stack)| + 1 && old(lua.stack) <= lua.stack
    ensures st == Done ==>
              lua.record != [] && Reply(lua.record, |lua.record| - 1) == Some(lua.stack[|lua.stack| - 1])
    ensures st == Thrown ==>
              lua.stack == old(lua.stack)
              + (if ChunkFateAt(lua.engine, GetAccessor, old(lua.clock)) == CompileRaises then [REGISTRY_TABLE] else [])
    ensures st == Raised <==> ChunkFateAt(lua.engine, GetAccessor, old(lua.clock)) == FetchFails
    ensures ChunkFateAt(lua.engine, GetAccessor, old(lua.clock)) == CompileRaises ==> st == Thrown
    ensures ChunkFateAt(lua.engine, GetAccessor, old(lua.clock)) == Ready ==>
              && MadeCall(lua.record, GetAccessor, [old(lua.stack)[index], Str(key)], st == Done)
              && |lua.record| > |old(lua.record)|
  {
    ghost var s := lua.stack;
    st := PushRegistryChunk(lua, GetAccessor);
    if st != Done {
      return;
    }
    ghost var r1 := lua.record;
    lua.Push(lua.stack[index]);
    lua.Push(Str(key));
    st := CallForOne(lua, GetAccessor, 2, s, [s[index], Str(key)], {key});
    AsksBoth(r1, lua.record, |old(lua.record)|, {}, {key});
    assert {} + {key} == {key};
  }

  /** Assigns the value on top to t[key] and pops it; the engine sees exactly (t, key, value). */
  method SetFieldProtected(lua: Lua, index: nat, key: string) returns (st: Status)
    requires lua.Valid() && lua.floor < |lua.stack| && index < |lua.stack|
    modifies lua`stack, lua`clock, lua`record, lua`faults
    ensures lua.Valid() && old(lua.record) <= lua.record
    ensures old(lua.faults) <= lua.faults && (st != Done ==> old(lua.faults) < lua.faults)
    ensures st == Done ==> lua.stack == old(lua.stack)[..|old(lua.stack)| - 1]
    ensures st == Thrown ==>
              lua.stack == old(lua.stack)
              + (if ChunkFateAt(lua.engine, SetAccessor, old(lua.clock)) == CompileRaises then [REGISTRY_TABLE] else [])
    ensures ChunkFateAt(lua.engine, SetAccessor, old(lua.clock)) == Ready ==>
              MadeCall(lua.record, SetAccessor,
                  [old(lua.stack)[index], Str(key), old(lua.stack)[|old(lua.stack)| - 1]], st == Done)
    ensures st == Done ==> ChunkFateAt(lua.engine, SetAccessor, old(lua.clock)) == Ready
  {
    ghost var s := lua.stack;
    var value := |lua.stack| - 1;
    st := PushRegistryChunk(lua, SetAccessor);
    if st != Done {
      return;
    }
    lua.Push(lua.stack[index]);
    lua.Push(Str(key));
    lua.Push(lua.stack[value]);
    st := CallOnTop(lua, SetAccessor, 3, s, [s[index], Str(key), s[value]]);
    if st == Done {
      lua.Pop(1);
    }
  }

  // ---------- entities ----------

  method PushEntsTable(lua: Lua) returns (st: Status, ok: bool)
    requires lua.Valid()
    modifies lua`stack, lua`clock, lua`faults
    ensures lua.Valid() && lua.clock == old(lua.clock) + 1
    ensures old(lua.faults) <= lua.faults && (st != Done ==> old(lua.faults) < lua.faults)
    ensures match lua.engine.field(Global("ents"), old(lua.clock))
            case FetchRaises => st == Raised
            case Gives(v) => st == Done && ok == v.Table? && lua.stack == old(lua.stack) + if ok then [v] else []
  {
    ok := false;
    lua.Push(GLOBAL_TABLE);
    st := lua.GetField(Global("ents"));
    if st == Raised {
      return;
    }
    if !lua.stack[|lua.stack| - 1].Table? {
      lua.Pop(2);
      return;
    }
    lua.RemoveBelowTop();
    ok := true;
  }

  /** At time t the ents library exists and has this function. */
  predicate EntsHas(engine: Engine, t: nat, key: string) {
    && engine.field(Global("ents"), t).Gives? && engine.field(Global("ents"), t).v.Table?
    && engine.field(Ents(key), t + 1) == Gives(Function)
  }

  /** The record since a position starts with ents.GetByIndex, asked for exactly this index. */
  predicate AskedForIndex(record: seq<CallRecord>, since: nat, entityIndex: int) {
    since < |record| && record[since].callee == Named("ents.GetByIndex")
    && record[since].args == [Num(Millionths(entityIndex * MILLION))]
  }

  /** What looking up an index at time t brought: the engine's answer unless it is nil; nothing without
      the library function or for an index that is not positive. */
  predicate Located(engine: Engine, t: nat, record: seq<CallRecord>, since: nat, entityIndex: int, v: Option<Value>) {
    if entityIndex <= 0 || !EntsHas(engine, t, "GetByIndex") then v.None?
    else
      var reply := Reply(record, since);
      AskedForIndex(record, since, entityIndex) && reply.Some? && v == if reply.value == Nil then None else reply
  }

  lemma LocatedStays(engine: Engine, t: nat, r1: seq<CallRecord>, r2: seq<CallRecord>, since: nat, entityIndex: int,
                     v: Option<Value>)
    requires r1 <= r2 && Located(engine, t, r1, since, entityIndex, v)
    ensures Located(engine, t, r2, since, entityIndex, v)
  {
  }

  /** On success the engine's answer is on top and not nil. On failure a nil may be left, on a C++
      exception the ents table; the caller's guard removes either. */
  method PushEntityByIndex(lua: Lua, entityIndex: int) returns (st: Status, ok: bool)
    requires lua.Valid()
    modifies lua`stack, lua`clock, lua`record, lua`faults
    ensures lua.Valid() && old(lua.record) <= lua.record
    ensures Asks(lua.record, |old(lua.record)|, {"ents.GetByIndex"})
    ensures old(lua.faults) <= lua.faults && (st != Done ==> old(lua.faults) < lua.faults)
    ensures st == Done && ok ==> |lua.stack| == |old(lua.stack)| + 1 && old(lua.stack) <= lua.stack
    ensures st == Done ==> Located(lua.engine, old(lua.clock), lua.record, |old(lua.record)|, entityIndex,
                                   if ok then Some(lua.stack[|lua.stack| - 1]) else None)
    ensures st == Done && !ok ==> lua.stack == old(lua.stack) || lua.stack == old(lua.stack) + [Nil]
    ensures st == Thrown ==> |lua.stack| == |old(lua.stack)| + 1 && old(lua.stack) <= lua.stack
  {
    ghost var s := lua.stack;
    if entityIndex <= 0 {
      return Done, false;
    }
    st, ok := PushEntsTable(lua);
    if st == Raised || !ok {
      return;
    }
    st := lua.GetField(Ents("GetByIndex"));
    if st == Raised {
      return;
    }
    if lua.stack[|lua.stack| - 1] != Function {
      lua.Pop(2);
      assert lua.stack == s;
      return Done, false;
    }
    ghost var below := lua.stack[..|lua.stack| - 1];
    var argument := Num(Millionths(entityIndex * MILLION));
    lua.Push(argument);
    st := CallForOne(lua, Named("ents.GetByIndex"), 1, below, [argument], {"ents.GetByIndex"});
    if st == Thrown {
      return;
    }
    lua.RemoveBelowTop();
    assert lua.stack[..|s|] == s;
    ok := lua.stack[|lua.stack| - 1] != Nil;
  }

  // ---------- reading a value from an entity ----------

  /** At this position of the record the method was looked up on v, and called with v alone if it is a
      function. */
  predicate AttemptAt(record: seq<CallRecord>, i: nat, name: string, v: Value) {
    && i < |record| && record[i].callee == GetAccessor && record[i].args == [v, Str(name)]
    && (Reply(record, i) == Some(Function) ==>
          i + 1 < |record| && record[i + 1].callee == Named(name) && record[i + 1].args == [v])
  }

  /** What an attempt brought: the first result, unless the method is missing or anything raised. */
  function Heard(record: seq<CallRecord>, i: nat): Option<Value> {
    if Reply(record, i) == Some(Function) then Reply(record, i + 1) else None
  }

  datatype Wanted = WantNumber | WantBool | WantString | WantVector | WantAngle | WantAny

  predicate HasType(v: Value, wanted: Wanted) {
    match wanted
    case WantNumber => v.Num?
    case WantBool => v.Bool?
    case WantString => v.Str?
    case WantVector => v.Vector?
    case WantAngle => v.Angle?
    case WantAny => true
  }

  function OfType(heard: Option<Value>, wanted: Wanted, default: Value): Value {
    if heard.Some? && HasType(heard.value, wanted) then heard.value else default
  }

  /** Since a position of the record, the method was attempted on v and brought this value: what it
      answered if that has the wanted type, else the default. Only entities are asked at all. */
  ghost predicate Reads(record: seq<CallRecord>, since: nat, name: string, v: Value, wanted: Wanted,
                        default: Value, value: Value)
  {
    if v.Entity? then
      exists i :: since <= i < |record| && AttemptAt(record, i, name, v)
          && value == OfType(Heard(record, i), wanted, default)
    else value == default
  }

  /** Later calls, and looking back further, do not change what was read. */
  lemma ReadsStay(r1: seq<CallRecord>, r2: seq<CallRecord>, since: nat, later: nat, name: string, v: Value,
                  wanted: Wanted, default: Value, value: Value)
    requires r1 <= r2 && since <= later && Reads(r1, later, name, v, wanted, default, value)
    ensures Reads(r2, since, name, v, wanted, default, value)
  {
    if v.Entity? {
      var i :| later <= i < |r1| && AttemptAt(r1, i, name, v) && value == OfType(Heard(r1, i), wanted, default);
      ReplyStays(r1, r2, i);
      if Reply(r1, i) == Some(Function) {
        ReplyStays(r1, r2, i + 1);
      }
      assert AttemptAt(r2, i, name, v) && Heard(r2, i) == Heard(r1, i);
    }
  }

  lemma ReadsTyped(record: seq<CallRecord>, since: nat, name: string, v: Value, wanted: Wanted, default: Value,
                   value: Value)
    requires wanted != WantAny && Reads(record, since, name, v, WantAny, Nil, value)
    ensures Reads(record, since, name, v, wanted, default, OfType(Some(value), wanted, default))
  {
  }

  /** What calling a method on a value leaves behind: the registry table, exactly when the value is an
      entity and the accessor chunk is neither cached nor compiles. */
  function Leak(engine: Engine, v: Value, t: nat): seq<Value> {
    if v.Entity? && ChunkFateAt(engine, GetAccessor, t) == CompileRaises then [REGISTRY_TABLE] else []
  }

  /** The second half: the method, which was looked up at position i of the record, is on top. */
  method CallFetched(lua: Lua, entity: nat, name: string, ghost s: seq<Value>, ghost i: nat) returns (st: Status)
    requires lua.Valid() && lua.floor <= |s| && entity < |s| && s <= lua.stack && |lua.stack| == |s| + 1
    requires |lua.record| == i + 1 && lua.record[i].callee == GetAccessor
              && lua.record[i].args == [s[entity], Str(name)]
    requires Reply(lua.record, i) == Some(Function)
    modifies lua`stack, lua`clock, lua`record, lua`faults
    ensures lua.Valid() && old(lua.record) <= lua.record && st != Raised
    ensures Asks(lua.record, |old(lua.record)|, {name})
    ensures old(lua.faults) <= lua.faults && (st != Done ==> old(lua.faults) < lua.faults)
    ensures if st == Done then s <= lua.stack && |lua.stack| == |s| + 1 else lua.stack == s
    ensures i < |lua.record| && AttemptAt(lua.record, i, name, s[entity])
    ensures Heard(lua.record, i) == if st == Done then Some(lua.stack[|lua.stack| - 1]) else None
  {
    ghost var r1 := lua.record;
    lua.Push(lua.stack[entity]);
    st := CallForOne(lua, Named(name), 1, s, [s[entity]], {name});
    ReplyStays(r1, lua.record, i);
  }

  /** Calls a method without arguments for one result. */
  method InvokeEntityMethod(lua: Lua, entity: nat, name: string) returns (st: Status, ok: bool)
    requires lua.Valid() && entity < |lua.stack|
    modifies lua`stack, lua`clock, lua`record, lua`faults
    ensures lua.Valid() && old(lua.record) <= lua.record
    ensures Asks(lua.record, |old(lua.record)|, {name})
    ensures old(lua.faults) <= lua.faults && (st != Done ==> old(lua.faults) < lua.faults)
    ensures st == Done && ok ==> |lua.stack| == |old(lua.stack)| + 1 && old(lua.stack) <= lua.stack
    ensures st == Done && !ok ==> lua.stack == old(lua.stack)
    ensures st == Thrown ==> lua.stack == old(lua.stack) + Leak(lua.engine, old(lua.stack)[entity], old(lua.clock))
    ensures Leak(lua.engine, old(lua.stack)[entity], old(lua.clock)) != [] ==> st == Thrown
    ensures !old(lua.stack)[entity].Entity? ==> st == Done && !ok
    ensures st != Raised && Leak(lua.engine, old(lua.stack)[entity], old(lua.clock)) == [] ==>
              Reads(lua.record, |old(lua.record)|, name, old(lua.stack)[entity], WantAny, Nil,
                    if st == Done && ok then lua.stack[|lua.stack| - 1] else Nil)
  {
    ghost var s := lua.stack;
    if !lua.stack[entity].Entity? {
      return Done, false;
    }
    ok := false;
    st := GetFieldProtected(lua, entity, name);
    if st == Raised {
      return;
    }
    ghost var i := |lua.record| - 1;
    if st == Thrown {
      if Leak(lua.engine, s[entity], old(lua.clock)) == [] {
        assert AttemptAt(lua.record, i, name, s[entity]) && Heard(lua.record, i) == None;
      }
      return;
    }
    ghost var r1 := lua.record;
    if lua.stack[|lua.stack| - 1] != Function {
      lua.Pop(1);
      assert lua.stack == s;
      assert AttemptAt(lua.record, i, name, s[entity]) && Heard(lua.record, i) == None;
      return;
    }
    st := CallFetched(lua, entity, name, s, i);
    ok := st == Done;
    AsksBoth(r1, lua.record, |old(lua.record)|, {name}, {name});
    assert {name} + {name} == {name};
  }

  /** The five try_get_entity functions, which differ only in the type they accept. Main result: with a
      working accessor chunk they leave the stack exactly as found, whatever happens; without one they
      leave the registry table, because the exception is caught above the value that was pushed. */
  method TryGetEntityValue(lua: Lua, entity: nat, name: string, wanted: Wanted, ghost default: Value)
    returns (st: Status, r: Option<Value>)
    requires lua.Valid() && entity < |lua.stack| && wanted != WantAny
    modifies lua`stack, lua`clock, lua`record, lua`faults
    ensures lua.Valid() && old(lua.record) <= lua.record && st != Thrown
    ensures Asks(lua.record, |old(lua.record)|, {name})
    ensures old(lua.faults) <= lua.faults && (st != Done ==> old(lua.faults) < lua.faults)
    ensures st == Done ==> lua.stack == old(lua.stack) + Leak(lua.engine, old(lua.stack)[entity], old(lua.clock))
    ensures r.Some? ==> HasType(r.value, wanted)
    ensures st == Done && Leak(lua.engine, old(lua.stack)[entity], old(lua.clock)) == [] ==>
              Reads(lua.record, |old(lua.record)|, name, old(lua.stack)[entity], wanted, default,
                    if r.Some? then r.value else default)
  {
    ghost var s, since := lua.stack, |lua.record|;
    var ok;
    st, ok := InvokeEntityMethod(lua, entity, name);
    if st == Raised {
      return st, None;
    }
    var top := if st == Done && ok then lua.stack[|lua.stack| - 1] else Nil;
    if Leak(lua.engine, s[entity], old(lua.clock)) == [] {
      ReadsTyped(lua.record, since, name, s[entity], wanted, default, top);
    }
    r := if HasType(top, wanted) then Some(top) else None;
    if st == Done && ok {
      lua.Pop(1);
      assert lua.stack == s;
    }
    st := Done;
  }

  // ---------- entity summaries ----------

  const NUM0 := Num(Millionths(0))
  const VECTOR0 := Vector(Millionths(0), Millionths(0), Millionths(0))
  const ANGLE0 := Angle(Millionths(0), Millionths(0), Millionths(0))

  /** A string method brought this text, up to its first NUL. */
  ghost predicate ReadsText(record: seq<CallRecord>, since: nat, name: string, v: Value, text: string) {
    exists s: string :: Reads(record, since, name, v, WantString, Str(""), Str(s)) && text == CString(s)
  }

  lemma ReadsTextStays(r1: seq<CallRecord>, r2: seq<CallRecord>, since: nat, later: nat, name: string, v: Value,
                       text: string)
    requires r1 <= r2 && since <= later && ReadsText(r1, later, name, v, text)
    ensures ReadsText(r2, since, name, v, text)
  {
    var s: string :| Reads(r1, later, name, v, WantString, Str(""), Str(s)) && text == CString(s);
    ReadsStay(r1, r2, since, later, name, v, WantString, Str(""), Str(s));
  }

  ghost predicate DescriptionFrom(record: seq<CallRecord>, since: nat, v: Value, className: string, model: string) {
    && ReadsText(record, since, "GetClass", v, className) && ReadsText(record, since, "GetModel", v, model)
  }

  ghost predicate PlacementFrom(record: seq<CallRecord>, since: nat, v: Value,
                                pos: (Number, Number, Number), angles: (Number, Number, Number))
  {
    && Reads(record, since, "GetPos", v, WantVector, VECTOR0, Vector(pos.0, pos.1, pos.2))
    && Reads(record, since, "GetAngles", v, WantAngle, ANGLE0, Angle(angles.0, angles.1, angles.2))
  }

  /** Every field is what the matching method of this very value brought; a value that does not say it is
      valid is asked no further and has no class, model or position. */
  ghost predicate SummaryFrom(record: seq<CallRecord>, since: nat, v: Value, s: Summary) {
    && Reads(record, since, "EntIndex", v, WantNumber, NUM0, Num(s.index))
    && Reads(record, since, "IsValid", v, WantBool, Bool(false), Bool(s.valid))
    && if s.valid then
         DescriptionFrom(record, since, v, s.className, s.model) && PlacementFrom(record, since, v, s.pos, s.angles)
       else s.className == "" && s.model == "" && s.pos == ZERO3 && s.angles == ZERO3
  }

  lemma DescriptionStays(r1: seq<CallRecord>, r2: seq<CallRecord>, since: nat, later: nat, v: Value,
                         className: string, model: string)
    requires r1 <= r2 && since <= later && DescriptionFrom(r1, later, v, className, model)
    ensures DescriptionFrom(r2, since, v, className, model)
  {
    ReadsTextStays(r1, r2, since, later, "GetClass", v, className);
    ReadsTextStays(r1, r2, since, later, "GetModel", v, model);
  }

  lemma PlacementStays(r1: seq<CallRecord>, r2: seq<CallRecord>, since: nat, later: nat, v: Value,
                       pos: (Number, Number, Number), angles: (Number, Number, Number))
    requires r1 <= r2 && since <= later && PlacementFrom(r1, later, v, pos, angles)
    ensures PlacementFrom(r2, since, v, pos, angles)
  {
    ReadsStay(r1, r2, since, later, "GetPos", v, WantVector, VECTOR0, Vector(pos.0, pos.1, pos.2));
    ReadsStay(r1, r2, since, later, "GetAngles", v, WantAngle, ANGLE0, Angle(angles.0, angles.1, angles.2));
  }

  lemma SummaryStays(r1: seq<CallRecord>, r2: seq<CallRecord>, since: nat, later: nat, v: Value, s: Summary)
    requires r1 <= r2 && since <= later && SummaryFrom(r1, later, v, s)
    ensures SummaryFrom(r2, since, v, s)
  {
    ReadsStay(r1, r2, since, later, "EntIndex", v, WantNumber, NUM0, Num(s.index));
    ReadsStay(r1, r2, since, later, "IsValid", v, WantBool, Bool(false), Bool(s.valid));
    if s.valid {
      DescriptionStays(r1, r2, since, later, v, s.className, s.model);
      PlacementStays(r1, r2, since, later, v, s.pos, s.angles);
    }
  }

  const IDENTITY := {"EntIndex", "IsValid"}

  method ReadIdentity(lua: Lua, entity: nat) returns (st: Status, index: Number, valid: bool)
    requires lua.Valid() && AccessorsCompile(lua.engine) && entity < |lua.stack|
    modifies lua`stack, lua`clock, lua`record, lua`faults
    ensures lua.Valid() && old(lua.record) <= lua.record && st != Thrown
    ensures st == Done ==> Asks(lua.record, |old(lua.record)|, IDENTITY)
    ensures old(lua.faults) <= lua.faults && (st != Done ==> old(lua.faults) < lua.faults)
    ensures st == Done ==> lua.stack == old(lua.stack)
    ensures st == Done ==>
              var since, v := |old(lua.record)|, old(lua.stack)[entity];
              && Reads(lua.record, since, "EntIndex", v, WantNumber, NUM0, Num(index))
              && Reads(lua.record, since, "IsValid", v, WantBool, Bool(false), Bool(valid))
  {
    ghost var since, v := |lua.record|, lua.stack[entity];
    index, valid := Millionths(0), false;
    var r;
    st, r := TryGetEntityValue(lua, entity, "EntIndex", WantNumber, NUM0);
    if st == Raised {
      return;
    }
    index := if r.Some? then r.value.n else index;
    ghost var r1 := lua.record;
    st, r := TryGetEntityValue(lua, entity, "IsValid", WantBool, Bool(false));
    if st == Raised {
      return;
    }
    valid := r.Some? && r.value.b;
    ReadsStay(r1, lua.record, since, since, "EntIndex", v, WantNumber, NUM0, Num(index));
    ReadsStay(lua.record, lua.record, since, |r1|, "IsValid", v, WantBool, Bool(false), Bool(valid));
    AsksBoth(r1, lua.record, since, {"EntIndex"}, {"IsValid"});
    assert {"EntIndex"} + {"IsValid"} == IDENTITY;
  }

  /** try_get_entity_string with an empty default. */
  method ReadText(lua: Lua, entity: nat, name: string) returns (st: Status, text: string)
    requires lua.Valid() && AccessorsCompile(lua.engine) && entity < |lua.stack|
    modifies lua`stack, lua`clock, lua`record, lua`faults
    ensures lua.Valid() && old(lua.record) <= lua.record && st != Thrown
    ensures old(lua.faults) <= lua.faults && (st != Done ==> old(lua.faults) < lua.faults)
    ensures st == Done ==> lua.stack == old(lua.stack)
    ensures st == Done ==> ReadsText(lua.record, |old(lua.record)|, name, old(lua.stack)[entity], text)
  {
    var r;
    st, r := TryGetEntityValue(lua, entity, name, WantString, Str(""));
    text := CString(if r.Some? then r.value.s else "");
  }

  method ReadDescription(lua: Lua, entity: nat) returns (st: Status, className: string, model: string)
    requires lua.Valid() && AccessorsCompile(lua.engine) && entity < |lua.stack|
    modifies lua`stack, lua`clock, lua`record, lua`faults
    ensures lua.Valid() && old(lua.record) <= lua.record && st != Thrown
    ensures old(lua.faults) <= lua.faults && (st != Done ==> old(lua.faults) < lua.faults)
    ensures st == Done ==> lua.stack == old(lua.stack)
    ensures st == Done ==> DescriptionFrom(lua.record, |old(lua.record)|, old(lua.stack)[entity], className, model)
  {
    ghost var since, v := |lua.record|, lua.stack[entity];
    className, model := "", "";
    st, className := ReadText(lua, entity, "GetClass");
    if st == Raised {
      return;
    }
    ghost var r1 := lua.record;
    st, model := ReadText(lua, entity, "GetModel");
    if st == Raised {
      return;
    }
    ReadsTextStays(r1, lua.record, since, since, "GetClass", v, className);
    ReadsTextStays(lua.record, lua.record, since, |r1|, "GetModel", v, model);
  }

  method ReadPlacement(lua: Lua, entity: nat)
    returns (st: Status, pos: (Number, Number, Number), angles: (Number, Number, Number))
    requires lua.Valid() && AccessorsCompile(lua.engine) && entity < |lua.stack|
    modifies lua`stack, lua`clock, lua`record, lua`faults
    ensures lua.Valid() && old(lua.record) <= lua.record && st != Thrown
    ensures old(lua.faults) <= lua.faults && (st != Done ==> old(lua.faults) < lua.faults)
    ensures st == Done ==> lua.stack == old(lua.stack)
    ensures st == Done ==> PlacementFrom(lua.record, |old(lua.record)|, old(lua.stack)[entity], pos, angles)
  {
    ghost var since, v := |lua.record|, lua.stack[entity];
    pos, angles := ZERO3, ZERO3;
    var r;
    st, r := TryGetEntityValue(lua, entity, "GetPos", WantVector, VECTOR0);
    if st == Raised {
      return;
    }
    if r.Some? {
      pos := (r.value.x, r.value.y, r.value.z);
    }
    ghost var r1 := lua.record;
    st, r := TryGetEntityValue(lua, entity, "GetAngles", WantAngle, ANGLE0);
    if st == Raised {
      return;
    }
    if r.Some? {
      angles := (r.value.x, r.value.y, r.value.z);
    }
    ReadsStay(r1, lua.record, since, since, "GetPos", v, WantVector, VECTOR0, Vector(pos.0, pos.1, pos.2));
    ReadsStay(lua.record, lua.record, since, |r1|, "GetAngles", v, WantAngle, ANGLE0,
        Angle(angles.0, angles.1, angles.2));
  }

  /** The part of build_entity_summary that runs for valid entities only. */
  method ReadRest(lua: Lua, entity: nat, partial: Summary, ghost since: nat) returns (st: Status, summary: Summary)
    requires lua.Valid() && AccessorsCompile(lua.engine) && entity < |lua.stack| && since <= |lua.record|
    requires partial.valid
              && Reads(lua.record, since, "EntIndex", lua.stack[entity], WantNumber, NUM0, Num(partial.index))
    requires Reads(lua.record, since, "IsValid", lua.stack[entity], WantBool, Bool(false), Bool(true))
    modifies lua`stack, lua`clock, lua`record, lua`faults
    ensures lua.Valid() && old(lua.record) <= lua.record && st != Thrown
    ensures old(lua.faults) <= lua.faults && (st != Done ==> old(lua.faults) < lua.faults)
    ensures st == Done ==> lua.stack == old(lua.stack) && summary.valid
    ensures st == Done ==> SummaryFrom(lua.record, since, old(lua.stack)[entity], summary)
  {
    summary := partial;
    ghost var v, r1 := lua.stack[entity], lua.record;
    var className, model;
    st, className, model := ReadDescription(lua, entity);
    if st == Raised {
      return;
    }
    ghost var r2 := lua.record;
    var pos, angles;
    st, pos, angles := ReadPlacement(lua, entity);
    if st == Raised {
      return;
    }
    summary := summary.(className := className, model := model, pos := pos, angles := angles);
    ReadsStay(r1, lua.record, since, since, "EntIndex", v, WantNumber, NUM0, Num(partial.index));
    ReadsStay(r1, lua.record, since, since, "IsValid", v, WantBool, Bool(false), Bool(true));
    DescriptionStays(r2, lua.record, since, |r1|, v, className, model);
    PlacementStays(lua.record, lua.record, since, |r2|, v, pos, angles);
  }

  /** Stack-neutral on every outcome that does not unwind the frame, and made of what the entity answered. */
  method BuildEntitySummary(lua: Lua, entity: nat) returns (st: Status, summary: Summary)
    requires lua.Valid() && AccessorsCompile(lua.engine) && entity < |lua.stack|
    modifies lua`stack, lua`clock, lua`record, lua`faults
    ensures lua.Valid() && old(lua.record) <= lua.record && st != Thrown
    ensures st == Done && !summary.valid ==> Asks(lua.record, |old(lua.record)|, IDENTITY)
    ensures old(lua.faults) <= lua.faults && (st != Done ==> old(lua.faults) < lua.faults)
    ensures st == Done ==> lua.stack == old(lua.stack)
    ensures st == Done ==> SummaryFrom(lua.record, |old(lua.record)|, old(lua.stack)[entity], summary)
  {
    summary := EMPTY_SUMMARY;
    if !lua.stack[entity].Entity? {
      return Done, summary;
    }
    var index, valid;
    st, index, valid := ReadIdentity(lua, entity);
    if st == Raised {
      return;
    }
    summary := summary.(index := index, valid := valid);
    if valid {
      st, summary := ReadRest(lua, entity, summary, |old(lua.record)|);
    }
  }

  /** The same for callers to whom it is all one what an invalid entity was asked. */
  method Summarise(lua: Lua, entity: nat) returns (st: Status, summary: Summary)
    requires lua.Valid() && AccessorsCompile(lua.engine) && entity < |lua.stack|
    modifies lua`stack, lua`clock, lua`record, lua`faults
    ensures lua.Valid() && old(lua.record) <= lua.record && st != Thrown
    ensures old(lua.faults) <= lua.faults && (st != Done ==> old(lua.faults) < lua.faults)
    ensures st == Done ==> lua.stack == old(lua.stack)
    ensures st == Done ==> SummaryFrom(lua.record, |old(lua.record)|, old(lua.stack)[entity], summary)
  {
    st, summary := BuildEntitySummary(lua, entity);
  }

  // ---------- the table walk ----------

  /** One turn of a table walk: reads the pair on top and pops its value, keeping the key. */
  method VisitPair(lua: Lua, filter: string) returns (entry: Option<Entry>)
    requires lua.floor + 2 <= |lua.stack|
    modifies lua`stack
    ensures lua.stack == old(lua.stack)[..|old(lua.stack)| - 1]
    ensures entry == EntryOfPair((old(lua.stack)[|old(lua.stack)| - 2], old(lua.stack)[|old(lua.stack)| - 1]), filter)
  {
    var key, value := KeyText(lua.stack[|lua.stack| - 2]), lua.stack[|lua.stack| - 1];
    if key == "" {
      lua.Pop(1);
      return None;
    }
    entry := EntryOf(key, value, filter);
    lua.Pop(1);
  }

  /** The entries of the first i pairs, of which there are no more than the limit. */
  predicate SoFar(pairs: seq<(Value, Value)>, i: nat, filter: string, entries: seq<Entry>) {
    i <= |pairs| && entries == EntriesOf(pairs[..i], filter) && |entries| <= MAX_TABLE_ENTRIES
  }

  /** The same turn, seen from the list of entries. */
  method AddEntry(lua: Lua, filter: string, entries: seq<Entry>, ghost pairs: seq<(Value, Value)>, ghost i: nat)
    returns (r: seq<Entry>)
    requires i < |pairs| && lua.floor + 2 <= |lua.stack|
              && (lua.stack[|lua.stack| - 2], lua.stack[|lua.stack| - 1]) == pairs[i]
    requires SoFar(pairs, i, filter, entries) && |entries| < MAX_TABLE_ENTRIES
    modifies lua`stack
    ensures lua.stack == old(lua.stack)[..|old(lua.stack)| - 1]
    ensures SoFar(pairs, i + 1, filter, r)
  {
    var entry := VisitPair(lua, filter);
    EntriesGrow(pairs, i, filter);
    r := entries + AsList(entry);
  }

  /** The key a walk holds after i turns. */
  function KeyBefore(pairs: seq<(Value, Value)>, i: nat): Value
    requires i <= |pairs|
  {
    if i == 0 then Nil else pairs[i - 1].0
  }

  /** Next, called with exactly the key it produced last. */
  method NextPair(lua: Lua, table: nat, ghost walk: seq<Value>, ghost i: nat) returns (more: bool)
    requires lua.Valid() && lua.floor <= |walk| && table < |walk| && walk[table].Table?
    requires i <= |lua.engine.table(walk[table].id)|
    requires lua.stack == walk + [KeyBefore(lua.engine.table(walk[table].id), i)]
    modifies lua`stack
    ensures lua.Valid()
    ensures var pairs := lua.engine.table(walk[table].id);
            && more == (i < |pairs|)
            && lua.stack == if more then walk + [pairs[i].0, pairs[i].1] else walk
  {
    ghost var pairs := lua.engine.table(walk[table].id);
    if i > 0 {
      AfterKeyAt(pairs, i - 1);
    }
    assert lua.stack[..|lua.stack| - 1] == walk;
    more := lua.Next(table);
  }

  /** Both exits of a walk, capped or exhausted, have the first entries. */
  lemma SoFarIsFirst(pairs: seq<(Value, Value)>, i: nat, filter: string, entries: seq<Entry>)
    requires SoFar(pairs, i, filter, entries) && (|entries| == MAX_TABLE_ENTRIES || i == |pairs|)
    ensures entries == FirstEntries(pairs, filter, MAX_TABLE_ENTRIES)
  {
    if i == |pairs| {
      assert pairs[..i] == pairs;
    } else {
      EntriesPrefix(pairs, i, filter);
    }
  }

  /** The walk holds pair i on top of what it started with. */
  predicate AtPair(stack: seq<Value>, walk: seq<Value>, pairs: seq<(Value, Value)>, i: nat) {
    i < |pairs| && stack == walk + [pairs[i].0, pairs[i].1]
  }

  /** One turn of the loop: the entry is added, and the walk goes on with the next pair unless the list is
      full, in which case the key is popped. */
  method WalkTurn(lua: Lua, table: nat, filter: string, entries: seq<Entry>, ghost walk: seq<Value>, ghost i: nat)
    returns (more: bool, r: seq<Entry>)
    requires lua.Valid() && lua.floor <= |walk| && table < |walk| && walk[table].Table?
    requires i < |lua.engine.table(walk[table].id)|
    requires SoFar(lua.engine.table(walk[table].id), i, filter, entries) && |entries| < MAX_TABLE_ENTRIES
    requires AtPair(lua.stack, walk, lua.engine.table(walk[table].id), i)
    modifies lua`stack
    ensures lua.Valid()
    ensures var pairs := lua.engine.table(walk[table].id);
            && SoFar(pairs, i + 1, filter, r)
            && more == (i + 1 < |pairs| && |r| < MAX_TABLE_ENTRIES)
            && if more then AtPair(lua.stack, walk, pairs, i + 1) else lua.stack == walk
  {
    r := AddEntry(lua, filter, entries, lua.engine.table(walk[table].id), i);
    assert lua.stack == walk + [lua.engine.table(walk[table].id)[i].0];
    if |r| >= MAX_TABLE_ENTRIES {
      lua.Pop(1);
      assert lua.stack == walk;
      return false, r;
    }
    more := NextPair(lua, table, walk, i + 1);
  }

  lemma NothingSoFar(pairs: seq<(Value, Value)>, filter: string)
    ensures SoFar(pairs, 0, filter, [])
  {
    assert pairs[..0] == [];
  }

  /** The loop, entered with nil as the key. */
  method WalkPairs(lua: Lua, table: nat, filter: string, ghost walk: seq<Value>) returns (entries: seq<Entry>)
    requires lua.Valid() && lua.floor <= |walk| && table < |walk| && walk[table].Table? && lua.stack == walk + [Nil]
    modifies lua`stack
    ensures lua.Valid() && lua.stack == walk
    ensures entries == FirstEntries(lua.engine.table(walk[table].id), filter, MAX_TABLE_ENTRIES)
  {
    ghost var pairs, i := lua.engine.table(walk[table].id), 0;
    entries := [];
    NothingSoFar(pairs, filter);
    var more := NextPair(lua, table, walk, i);
    while more
      invariant lua.Valid() && SoFar(pairs, i, filter, entries)
      invariant more == (i < |pairs| && |entries| < MAX_TABLE_ENTRIES)
      invariant if more then AtPair(lua.stack, walk, pairs, i) else lua.stack == walk
      decreases |pairs| - i
    {
      more, entries := WalkTurn(lua, table, filter, entries, walk, i);
      i := i + 1;
    }
    SoFarIsFirst(pairs, i, filter, entries);
  }

  /** The walk shared by get_entity_table_entries and get_entity_network_var_entries, entered with the
      table on top. Every Next sees the key it produced last, and both exits, exhausted or capped, leave
      the same stack: the table is gone. */
  method WalkEntries(lua: Lua, filter: string) returns (entries: seq<Entry>)
    requires lua.Valid() && lua.floor < |lua.stack| && lua.stack[|lua.stack| - 1].Table?
    modifies lua`stack
    ensures lua.Valid() && lua.stack == old(lua.stack)[..|old(lua.stack)| - 1]
    ensures entries == FirstEntries(lua.engine.table(old(lua.stack)[|old(lua.stack)| - 1].id), filter,
              MAX_TABLE_ENTRIES)
  {
    ghost var walk := lua.stack;
    lua.Push(Nil);
    entries := WalkPairs(lua, |lua.stack| - 2, filter, walk);
    lua.Pop(1);
  }
}
