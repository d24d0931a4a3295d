/** The Lua stack as EntityQuery uses it: a sequence of values, a floor below which the current
    stack_guard forbids popping, and an engine whose answers are arbitrary. */
module LuaStack {
  import opened Text
  import opened NumberFormat

  datatype Value =
    | Nil
    | Bool(b: bool)
    | Num(n: Number)
    | Str(s: string)
    | Table(id: nat)
    | Function
    | Entity(id: nat)
    | Vector(x: Number, y: Number, z: Number)
    | Angle(x: Number, y: Number, z: Number)
    | Userdata
    | Thread
    | Other(typeName: string)

  /** What is being called; it selects the engine's answer. */
  datatype Callee = CompileString | GetAccessor | SetAccessor | Named(name: string)

  /** The answer of a protected call. */
  datatype CallOutcome = Returns(values: seq<Value>) | Raises(error: Value)

  /** An unprotected GetField: a value, or a Lua error out of a metamethod. */
  datatype Fetch = Gives(v: Value) | FetchRaises

  datatype Source = Registry(key: string) | Global(key: string) | Ents(key: string)

  /** The engine's answers, one for every point in time, and the contents of tables in Next order. */
  datatype Engine = Engine(
    call: (Callee, nat) -> CallOutcome,
    field: (Source, nat) -> Fetch,
    table: nat -> seq<(Value, Value)>)

  /** A protected call that was made: callee, arguments and the engine's answer. */
  datatype CallRecord = CallRecord(callee: Callee, args: seq<Value>, outcome: CallOutcome)

  /** How a helper ends: normally, with a C++ exception, or with a Lua error that unwinds to the
      enclosing protected call and that no C++ handler sees. */
  datatype Status = Done | Thrown | Raised

  const REGISTRY_TABLE := Table(0)
  const GLOBAL_TABLE := Table(1)

  // ---------- iteration ----------

  ghost predicate UniqueKeys(pairs: seq<(Value, Value)>) {
    && (forall i :: 0 <= i < |pairs| ==> pairs[i].0 != Nil)
    && (forall i, j :: 0 <= i < j < |pairs| ==> pairs[i].0 != pairs[j].0)
  }

  /** Position of a key; |pairs| when it is not a key. */
  function KeyIndex(pairs: seq<(Value, Value)>, key: Value): (i: nat)
    ensures i <= |pairs| && (i < |pairs| ==> pairs[i].0 == key)
    ensures i == |pairs| ==> forall j :: 0 <= j < |pairs| ==> pairs[j].0 != key
  {
    if pairs == [] then 0
    else if pairs[0].0 == key then 0
    else
      var i := KeyIndex(pairs[1..], key);
      assert i == |pairs[1..]| ==> forall j :: 0 < j < |pairs| ==> pairs[j].0 == pairs[1..][j - 1].0;
      1 + i
  }

  /** Where lua_next continues after a key; nil starts the walk. */
  function After(pairs: seq<(Value, Value)>, key: Value): nat {
    if key == Nil then 0 else KeyIndex(pairs, key) + 1
  }

  predicate IsKey(pairs: seq<(Value, Value)>, key: Value) {
    key == Nil || KeyIndex(pairs, key) < |pairs|
  }

  lemma AfterKeyAt(pairs: seq<(Value, Value)>, i: nat)
    requires UniqueKeys(pairs) && i < |pairs|
    ensures IsKey(pairs, pairs[i].0) && After(pairs, pairs[i].0) == i + 1
  {
  }

  // ---------- protected calls ----------

  /** Exactly n results: extra ones are dropped, missing ones are nil. */
  function Adjust(values: seq<Value>, n: nat): (r: seq<Value>)
    ensures |r| == n && forall i :: 0 <= i < n ==> r[i] == if i < |values| then values[i] else Nil
  {
    if n == 0 then [] else [if values == [] then Nil else values[0]] + Adjust(if values == [] then []
        else values[1..], n - 1)
  }

  /** The first result of the call at a position of the record, if it was made and did not raise. */
  function Reply(record: seq<CallRecord>, at: nat): Option<Value> {
    if at < |record| && record[at].outcome.Returns? then Some(Adjust(record[at].outcome.values, 1)[0]) else None
  }

  lemma ReplyStays(r1: seq<CallRecord>, r2: seq<CallRecord>, at: nat)
    requires r1 <= r2 && at < |r1|
    ensures Reply(r2, at) == Reply(r1, at)
  {
    assert r2[at] == r1[at];
  }

  class Lua {
    const engine: Engine
    var stack: seq<Value>
    var clock: nat
    var callers: seq<seq<Value>>
    ghost var floor: nat
    ghost var record: seq<CallRecord>
    ghost var faults: nat  // how many fetches and calls the engine has answered with an error

    ghost predicate Valid()
      reads this
    {
      floor <= |stack| && forall id :: UniqueKeys(engine.table(id))
    }

    constructor (engine: Engine, stack: seq<Value>)
      requires forall id :: UniqueKeys(engine.table(id))
      ensures Valid() && this.stack == stack && this.engine == engine
    {
      this.engine, this.stack := engine, stack;
      clock, callers, floor, record, faults := 0, [], |stack|, [], 0;
    }

    method Push(v: Value)
      modifies this`stack
      ensures stack == old(stack) + [v]
    {
      stack := stack + [v];
    }

    /** Popping is allowed only down to the floor of the current guard. */
    method Pop(n: nat)
      requires floor + n <= |stack|
      modifies this`stack
      ensures stack == old(stack)[..|old(stack)| - n]
    {
      stack := stack[..|stack| - n];
    }

    /** Remove(-2). */
    method RemoveBelowTop()
      requires floor + 2 <= |stack|
      modifies this`stack
      ensures stack == old(stack)[..|old(stack)| - 2] + [old(stack)[|old(stack)| - 1]]
    {
      stack := stack[..|stack| - 2] + [stack[|stack| - 1]];
    }

    /** GetField on a plain table: pushes the value, unless it raises. */
    method GetField(source: Source) returns (st: Status)
      modifies this`stack, this`clock, this`faults
      ensures clock == old(clock) + 1
      ensures faults == old(faults) + One(engine.field(source, old(clock)) == FetchRaises)
      ensures match engine.field(source, old(clock))
              case Gives(v) => st == Done && stack == old(stack) + [v]
              case FetchRaises => st == Raised && stack == old(stack)
    {
      var answer := engine.field(source, clock);
      clock := clock + 1;
      if answer.FetchRaises? {
        faults := faults + 1;
        return Raised;
      }
      stack := stack + [answer.v];
      st := Done;
    }

    /** PCall: consumes the function and its arguments, pushes the results or the error. */
    method PCall(callee: Callee, args: nat, results: nat) returns (ok: bool)
      requires floor + args + 1 <= |stack|
      modifies this`stack, this`clock, this`record, this`faults
      ensures clock == old(clock) + 1
      ensures faults == old(faults) + One(engine.call(callee, old(clock)).Raises?)
      ensures ok == engine.call(callee, old(clock)).Returns?
      ensures record == old(record) + [CallRecord(callee, old(stack)[|old(stack)| - args..],
                engine.call(callee, old(clock)))]
      ensures stack == old(stack)[..|old(stack)| - args - 1]
                       + (match engine.call(callee, old(clock))
                          case Returns(values) => Adjust(values, results)
                          case Raises(error) => [error])
    {
      var outcome := engine.call(callee, clock);
      ok := outcome.Returns?;
      faults := faults + One(!ok);
      record := record + [CallRecord(callee, stack[|stack| - args..], outcome)];
      stack := stack[..|stack| - args - 1] + (match outcome case Returns(values) => Adjust(values, results)
                                                            case Raises(error) => [error]);
      clock := clock + 1;
    }

    /** Next: the key on top must be nil or a key of the table. */
    method Next(table: nat) returns (more: bool)
      requires Valid() && floor < |stack| && table < |stack| - 1 && stack[table].Table?
      requires IsKey(engine.table(stack[table].id), stack[|stack| - 1])
      modifies this`stack
      ensures var pairs := engine.table(old(stack)[table].id);
              var i := After(pairs, old(stack)[|old(stack)| - 1]);
              && more == (i < |pairs|)
              && stack == old(stack)[..|old(stack)| - 1] + (if more then [pairs[i].0, pairs[i].1] else [])
    {
      var pairs := engine.table(stack[table].id);
      var i := After(pairs, stack[|stack| - 1]);
      more := i < |pairs|;
      stack := stack[..|stack| - 1] + (if more then [pairs[i].0, pairs[i].1] else []);
    }

    /** run_in_c_frame up to the body: guard, push the function and its argument, enter the new frame,
        whose own guard starts above the argument. */
    method EnterFrame()
      requires Valid()
      modifies this
      ensures Valid() && stack == [Userdata] && floor == 1
      ensures callers == old(callers) + [old(stack)]
      ensures record == old(record) && clock == old(clock) && faults == old(faults)
    {
      callers := callers + [stack];
      stack, floor := [Userdata], 1;
    }

    /** run_in_c_frame after the body. Leaving the frame drops whatever the body left on it. A C++
        exception is rethrown; a raised Lua error arrives as the error value, which is popped and
        rethrown as a C++ exception. */
    method LeaveFrame(st: Status, ghost outerFloor: nat) returns (r: Status)
      requires callers != [] && outerFloor <= |callers[|callers| - 1]| && floor == 1
      requires Valid()
      modifies this
      ensures Valid() && stack == old(callers)[|old(callers)| - 1] && floor == outerFloor
      ensures callers == old(callers)[..|old(callers)| - 1]
      ensures r == if st == Done then Done else Thrown
      ensures record == old(record) && clock == old(clock) && faults == old(faults)
    {
      if st != Raised {
        // The body's stack_guard.
        Pop(|stack| - 1);
      }
      stack, callers := callers[|callers| - 1], callers[..|callers| - 1];
      floor := outerFloor;
      if st == Raised {
        Push(Str("error"));
        Pop(1);
      }
      r := if st == Done then Done else Thrown;
    }
  }
}
