/** Who owns a server: the raw-pointer protocol between the Lua userdata slots and the statics
    active_server and active_server_ptr. Servers and slots are numbered in order of allocation. */
module ServerOwnership {
  import opened Text

  type Server = nat
  type Slot = nat

  /** The module's statics, the slots the Lua collector has not taken yet, and the heap as the set of
      servers alive plus the log of deletions. */
  datatype State = State(
    active: Option<Server>,
    activePtr: Option<Slot>,
    slots: map<Slot, Option<Server>>,
    alive: set<Server>,
    deletions: seq<Server>,
    servers: nat,
    slotCount: nat,
    loaded: bool)

  const FRESH := State(None, None, map[], {}, [], 0, 0, false)

  datatype Op =
    | Initialize
    | Deinitialize
    | Activate(slot: Slot, constructed: bool)
    | Deactivate(slot: Slot)
    | Destruct(slot: Slot)

  function Delete(s: State, x: Server): State {
    s.(alive := s.alive - {x}, deletions := s.deletions + [x])
  }

  /** if (*server != nullptr) { delete *server; *server = nullptr; } */
  function DeleteHeld(s: State, slot: Slot): State
    requires slot in s.slots
  {
    if s.slots[slot].Some? then Delete(s, s.slots[slot].value).(slots := s.slots[slot := None]) else s
  }

  /** A new server in an empty slot. */
  function Construct(s: State, slot: Slot): State {
    s.(slots := s.slots[slot := Some(s.servers)], alive := s.alive + {s.servers}, servers := s.servers + 1)
  }

  function Do(s: State, op: Op): State
    requires op.Activate? || op.Deactivate? || op.Destruct? ==> op.slot in s.slots
  {
    match op
    case Initialize =>
      s.(slots := s.slots[s.slotCount := None], activePtr := Some(s.slotCount),
         slotCount := s.slotCount + 1, loaded := true)
    case Deinitialize =>
      if s.active.Some? then
        var cleared := if s.activePtr.Some?
                       then s.(slots := s.slots[s.activePtr.value := None], activePtr := None)
                       else s;
        Delete(cleared, s.active.value).(active := None, loaded := false)
      else s.(loaded := false)
    case Activate(slot, constructed) =>
      var t := DeleteHeld(s, slot);
      if constructed then Construct(t, slot).(active := Some(t.servers), activePtr := Some(slot))
      else t.(active := None, activePtr := None)
    case Deactivate(slot) => DeleteHeld(s, slot).(active := None, activePtr := None)
    case Destruct(slot) =>
      var t := DeleteHeld(s, slot).(active := None, activePtr := None);
      t.(slots := t.slots - {slot})
  }

  /** Loads and unloads alternate; while unloaded only the collector runs; functions reach only slots
      that have not been collected. */
  predicate Legal(s: State, op: Op) {
    match op
    case Initialize => !s.loaded
    case Deinitialize => s.loaded
    case Activate(slot, _) => s.loaded && slot in s.slots
    case Deactivate(slot) => s.loaded && slot in s.slots
    case Destruct(slot) => slot in s.slots
  }

  predicate LegalRun(s: State, ops: seq<Op>)
    decreases |ops|
  {
    ops == [] || (Legal(s, ops[0]) && LegalRun(Do(s, ops[0]), ops[1..]))
  }

  function Run(s: State, ops: seq<Op>): State
    requires LegalRun(s, ops)
    decreases |ops|
  {
    if ops == [] then s else Run(Do(s, ops[0]), ops[1..])
  }

  // ---------- the invariant ----------

  ghost predicate DeletedOnce(s: State) {
    && (forall i, j :: 0 <= i < j < |s.deletions| ==> s.deletions[i] != s.deletions[j])
    && (forall i :: 0 <= i < |s.deletions| ==> s.deletions[i] !in s.alive)
    && (forall i :: 0 <= i < |s.deletions| ==> s.deletions[i] < s.servers)
  }

  /** What slots hold is alive, what is alive is held, and no two slots hold the same server. */
  ghost predicate HeldByOneSlot(s: State) {
    && (forall k :: k in s.slots && s.slots[k].Some? ==> s.slots[k].value in s.alive)
    && (forall x :: x in s.alive ==> exists k :: k in s.slots && s.slots[k] == Some(x))
    && (forall j, k :: j in s.slots && k in s.slots && j != k && s.slots[j].Some? ==> s.slots[j] != s.slots[k])
    && (forall x :: x in s.alive ==> x < s.servers)
    && (forall k :: k in s.slots ==> k < s.slotCount)
  }

  predicate ActiveInSync(s: State) {
    && (s.activePtr.Some? ==> s.activePtr.value in s.slots)
    && (s.active.Some? ==> s.activePtr.Some? && s.slots[s.activePtr.value] == s.active)
  }

  ghost predicate Valid(s: State) {
    DeletedOnce(s) && HeldByOneSlot(s) && ActiveInSync(s)
  }

  lemma DeleteHeldDeletesOnce(s: State, slot: Slot)
    requires DeletedOnce(s) && HeldByOneSlot(s) && slot in s.slots
    ensures DeletedOnce(DeleteHeld(s, slot))
  {
  }

  lemma DeleteHeldKeepsHeld(s: State, slot: Slot)
    requires HeldByOneSlot(s) && slot in s.slots
    ensures HeldByOneSlot(DeleteHeld(s, slot))
  {
    var t := DeleteHeld(s, slot);
    forall x | x in t.alive ensures exists k :: k in t.slots && t.slots[k] == Some(x) {
      var k :| k in s.slots && s.slots[k] == Some(x);
      assert k in t.slots && t.slots[k] == Some(x);
    }
  }

  lemma DeleteHeldKeepsValid(s: State, slot: Slot)
    requires DeletedOnce(s) && HeldByOneSlot(s) && slot in s.slots
    ensures DeletedOnce(DeleteHeld(s, slot)) && HeldByOneSlot(DeleteHeld(s, slot))
  {
    DeleteHeldDeletesOnce(s, slot);
    DeleteHeldKeepsHeld(s, slot);
  }

  lemma ConstructKeepsHeld(s: State, slot: Slot)
    requires DeletedOnce(s) && HeldByOneSlot(s) && slot in s.slots && s.slots[slot].None?
    ensures DeletedOnce(Construct(s, slot)) && HeldByOneSlot(Construct(s, slot))
  {
    var t := Construct(s, slot);
    forall x | x in t.alive ensures exists k :: k in t.slots && t.slots[k] == Some(x) {
      if x == s.servers {
        assert t.slots[slot] == Some(x);
      } else {
        var k :| k in s.slots && s.slots[k] == Some(x);
        assert k in t.slots && t.slots[k] == Some(x);
      }
    }
  }

  lemma ActivateKeepsValid(s: State, slot: Slot)
    requires Valid(s) && slot in s.slots
    ensures Valid(Do(s, Activate(slot, true)))
  {
    DeleteHeldKeepsValid(s, slot);
    ConstructKeepsHeld(DeleteHeld(s, slot), slot);
  }

  lemma DestructKeepsValid(s: State, slot: Slot)
    requires Valid(s) && slot in s.slots
    ensures Valid(Do(s, Destruct(slot)))
  {
    DeleteHeldKeepsValid(s, slot);
    var m := DeleteHeld(s, slot);
    var t := Do(s, Destruct(slot));
    forall x | x in t.alive ensures exists k :: k in t.slots && t.slots[k] == Some(x) {
      var k :| k in m.slots && m.slots[k] == Some(x);
      assert k in t.slots && t.slots[k] == Some(x);
    }
  }

  lemma DeinitializeKeepsValid(s: State)
    requires Valid(s)
    ensures Valid(Do(s, Deinitialize)) && Do(s, Deinitialize).active.None?
  {
    if s.active.Some? {
      DeleteHeldKeepsValid(s, s.activePtr.value);
    }
  }

  /** Initialize keeps the invariant exactly when no server is active. */
  lemma InitializeCondition(s: State)
    requires Valid(s)
    ensures Valid(Do(s, Initialize)) <==> s.active.None?
  {
    var t := Do(s, Initialize);
    forall x | x in t.alive ensures exists k :: k in t.slots && t.slots[k] == Some(x) {
      var k :| k in s.slots && s.slots[k] == Some(x);
      assert k in t.slots && t.slots[k] == Some(x);
    }
  }

  ghost predicate UnloadedIsInactive(s: State) {
    !s.loaded ==> s.active.None?
  }

  lemma StepKeepsValid(s: State, op: Op)
    requires Valid(s) && UnloadedIsInactive(s) && Legal(s, op)
    ensures Valid(Do(s, op)) && UnloadedIsInactive(Do(s, op))
  {
    match op
    case Initialize => InitializeCondition(s);
    case Deinitialize => DeinitializeKeepsValid(s);
    case Activate(slot, constructed) =>
      if constructed { ActivateKeepsValid(s, slot); } else { DeleteHeldKeepsValid(s, slot); }
    case Deactivate(slot) => DeleteHeldKeepsValid(s, slot);
    case Destruct(slot) => DestructKeepsValid(s, slot);
  }

  lemma {:induction false} RunKeepsValid(s: State, ops: seq<Op>)
    requires Valid(s) && UnloadedIsInactive(s) && LegalRun(s, ops)
    ensures Valid(Run(s, ops)) && UnloadedIsInactive(Run(s, ops))
    decreases |ops|
  {
    if ops != [] {
      StepKeepsValid(s, ops[0]);
      RunKeepsValid(Do(s, ops[0]), ops[1..]);
    }
  }

  /** Main result, over every legal run: each server is deleted at most once, every live server is held
      by exactly one slot, a non-null active_server equals *active_server_ptr, and the pointer never
      dangles. Once every slot has been collected, nothing is left alive. */
  lemma OwnershipIsSound(ops: seq<Op>)
    requires LegalRun(FRESH, ops)
    ensures Valid(Run(FRESH, ops))
    ensures Run(FRESH, ops).slots == map[] ==> Run(FRESH, ops).alive == {}
  {
    RunKeepsValid(FRESH, ops);
  }

  /** Loading twice without unloading is what the alternation rules out: the first server is then
      deleted by Deinitialize and again by the collector. */
  lemma SecondInitializeDeletesTwice()
    ensures var s1 := Do(FRESH, Initialize);
            var s2 := Do(s1, Activate(0, true));
            var s3 := Do(s2, Initialize);
            var s4 := Do(s3, Deinitialize);
            !Legal(s2, Initialize) && Do(s4, Destruct(0)).deletions == [0, 0]
  {
    var s2 := Do(Do(FRESH, Initialize), Activate(0, true));
    assert s2.slots == map[0 := Some(0)];
    var s4 := Do(Do(s2, Initialize), Deinitialize);
    assert s4.slots == map[0 := Some(0), 1 := None];
    assert s4.deletions == [0];
  }

  /** What an unload leaves alive: nothing, if and only if the active server is all there is. Whatever else
      is alive then waits for the collector. */
  lemma DeinitializeCondition(s: State)
    requires Valid(s)
    ensures Do(s, Deinitialize).alive == {} <==> s.alive == {} || (s.active.Some? && s.alive == {s.active.value})
  {
  }

  lemma RunFirst(s: State, op: Op, ops: seq<Op>)
    requires Legal(s, op) && LegalRun(Do(s, op), ops)
    ensures LegalRun(s, [op] + ops) && Run(s, [op] + ops) == Run(Do(s, op), ops)
  {
    assert ([op] + ops)[1..] == ops;
  }

  const LATE: seq<Op> := [Activate(1, true)] + ([Destruct(0)] + ([Deinitialize] + []))

  const OUTLIVES: seq<Op> := [Initialize] + ([Deinitialize] + ([Initialize] + LATE))

  lemma LateCollection(s: State)
    requires s.slots == map[0 := None, 1 := None] && s.loaded && s.alive == {} && s.servers == 0
    ensures LegalRun(s, LATE) && !Run(s, LATE).loaded && Run(s, LATE).alive == {0}
  {
    var s1 := Do(s, Activate(1, true));
    assert s1.slots == map[0 := None, 1 := Some(0)];
    var s2 := Do(s1, Destruct(0));
    RunFirst(s2, Deinitialize, []);
    RunFirst(s1, Destruct(0), [Deinitialize] + []);
    RunFirst(s, Activate(1, true), [Destruct(0)] + ([Deinitialize] + []));
  }

  /** The condition can fail in a legal run: the late collection of an old, empty slot clears active_server
      although a newer server is live, and the next unload deletes nothing. */
  lemma ServerCanOutliveUnload()
    ensures LegalRun(FRESH, OUTLIVES)
    ensures !Run(FRESH, OUTLIVES).loaded && Run(FRESH, OUTLIVES).alive == {0}
  {
    var s1 := Do(FRESH, Initialize);
    var s2 := Do(s1, Deinitialize);
    var s3 := Do(s2, Initialize);
    assert s3.slots == map[0 := None, 1 := None];
    LateCollection(s3);
    RunFirst(s2, Initialize, LATE);
    RunFirst(s1, Deinitialize, [Initialize] + LATE);
    RunFirst(FRESH, Initialize, [Deinitialize] + ([Initialize] + LATE));
  }

  // ---------- the functions of the module ----------

  class Module {
    var active: Option<Server>
    var activePtr: Option<Slot>
    var slots: map<Slot, Option<Server>>
    var alive: set<Server>
    var deletions: seq<Server>
    var servers: nat
    var slotCount: nat
    var loaded: bool

    ghost function View(): State
      reads this
    {
      State(active, activePtr, slots, alive, deletions, servers, slotCount, loaded)
    }

    /** The invariant of the protocol. */
    ghost predicate Sound()
      reads this
    {
      Valid(View()) && UnloadedIsInactive(View())
    }

    /** A sound state in which the protocol allows the operation. */
    ghost predicate Allows(op: Op)
      reads this
    {
      Sound() && Legal(View(), op)
    }

    ghost predicate Deleted(x: Server)
      reads this
    {
      x !in alive && x in deletions
    }

    constructor ()
      ensures View() == FRESH && Sound()
    {
      active, activePtr, slots := None, None, map[];
      alive, deletions, servers, slotCount, loaded := {}, [], 0, 0, false;
    }

    /** operator new for a server. */
    method New() returns (x: Server)
      modifies this`alive, this`servers
      ensures x == old(servers) && servers == x + 1 && alive == old(alive) + {x}
    {
      x := servers;
      alive, servers := alive + {x}, servers + 1;
    }

    /** operator delete for a server. */
    method Free(x: Server)
      modifies this`alive, this`deletions
      ensures alive == old(alive) - {x} && deletions == old(deletions) + [x]
    {
      alive, deletions := alive - {x}, deletions + [x];
    }

    method FreeHeld(slot: Slot)
      requires slot in slots
      modifies this
      ensures View() == DeleteHeld(old(View()), slot)
    {
      if slots[slot].Some? {
        Free(slots[slot].value);
        slots := slots[slot := None];
      }
    }

    method Initialize() returns (slot: Slot)
      modifies this
      ensures View() == Do(old(View()), Op.Initialize)
      ensures activePtr == Some(slot) && slot in slots && slots[slot] == None
      ensures old(Sound()) ==> slot !in old(slots) && (Valid(View()) <==> old(active).None?)
      ensures old(Allows(Op.Initialize)) ==> Sound()
    {
      if Valid(View()) {
        InitializeCondition(View());
      }
      slot := slotCount;
      slotCount := slotCount + 1;
      slots := slots[slot := None];
      activePtr := Some(slot);
      loaded := true;
    }

    /** `constructed` is false when constructing or configuring the server throws. The server that the slot
        held is deleted, and the new one is a server never seen before. */
    method Activate(slot: Slot, constructed: bool)
      requires slot in slots
      modifies this
      ensures View() == Do(old(View()), Op.Activate(slot, constructed))
      ensures old(Allows(Op.Activate(slot, constructed))) ==>
                && Sound()
                && (old(slots)[slot].Some? ==> Deleted(old(slots)[slot].value))
                && (constructed ==> && active == slots[slot] && active.Some?
                                    && active.value !in old(alive) && active.value !in old(deletions))
    {
      if Allows(Op.Activate(slot, constructed)) {
        StepKeepsValid(View(), Op.Activate(slot, constructed));
      }
      FreeHeld(slot);
      if !constructed {
        active, activePtr := None, None;
        return;
      }
      var server := New();
      slots := slots[slot := Some(server)];
      active := slots[slot];
      activePtr := Some(slot);
    }

    method Deactivate(slot: Slot)
      requires slot in slots
      modifies this
      ensures View() == Do(old(View()), Op.Deactivate(slot))
      ensures old(Allows(Op.Deactivate(slot))) ==>
                && Sound() && active.None? && slots[slot] == None
                && (old(slots)[slot].Some? ==> Deleted(old(slots)[slot].value))
    {
      if Allows(Op.Deactivate(slot)) {
        StepKeepsValid(View(), Op.Deactivate(slot));
      }
      FreeHeld(slot);
      active, activePtr := None, None;
    }

    method Destruct(slot: Slot)
      requires slot in slots
      modifies this
      ensures View() == Do(old(View()), Op.Destruct(slot))
      ensures old(Allows(Op.Destruct(slot))) ==>
                && Sound() && active.None? && slot !in slots
                && (if old(slots)[slot].Some? then Deleted(old(slots)[slot].value) else deletions == old(deletions))
    {
      if Allows(Op.Destruct(slot)) {
        StepKeepsValid(View(), Op.Destruct(slot));
      }
      FreeHeld(slot);
      active, activePtr := None, None;
      slots := slots - {slot};
    }

    /** The active server is deleted and its slot emptied, so that a later collection of the slot deletes
        nothing. */
    method Deinitialize()
      modifies this
      ensures View() == Do(old(View()), Op.Deinitialize)
      ensures old(Allows(Op.Deinitialize)) ==>
                && Sound() && active.None?
                && (old(active).Some? ==>
                      Deleted(old(active).value) && old(activePtr).Some? && slots[old(activePtr).value] == None)
    {
      if Allows(Op.Deinitialize) {
        StepKeepsValid(View(), Op.Deinitialize);
      }
      if active.Some? {
        if activePtr.Some? {
          slots := slots[activePtr.value := None];
          activePtr := None;
        }
        Free(active.value);
        active := None;
      }
      loaded := false;
    }
  }
}
