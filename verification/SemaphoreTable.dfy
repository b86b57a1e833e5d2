/**
 The table of named semaphores (synchro.c): lookup, opening, closing, waiting, posting and the
 clean-up of a killed process, each proved against the step of the same kind in Agreement.
 */
module SemaphoreTable {
  import opened Common
  import opened KernelModel
  import opened SchedulerTheorems
  import opened WaitQueue
  import opened SemaphoreModel
  import opened Scheduler
  import opened Semaphores
  import opened Agreement

  /** What a slot of the table shows: the name and the state of its semaphore. */
  datatype Entry = Entry(name: string, sem: Sem)

  predicate At(slots: seq<Option<Entry>>, i: int, name: string) {
    0 <= i < |slots| && slots[i].Some? && slots[i].value.name == name
  }

  /** The slots hold exactly the semaphores of the map, each in one slot. */
  ghost predicate Represents(slots: seq<Option<Entry>>, sems: map<string, Sem>) {
    && (forall i, name :: At(slots, i, name) ==> name in sems && sems[name] == slots[i].value.sem)
    && (forall i, j, name :: At(slots, i, name) && At(slots, j, name) ==> i == j)
    && (forall name :: name in sems ==> exists i :: At(slots, i, name))
  }

  /** Slot i gets another entry or none; the other slots keep theirs. */
  lemma AtOthers(slots: seq<Option<Entry>>, i: nat, e: Option<Entry>, j: int, n: string)
    requires i < |slots|
    ensures At(slots[i := e], j, n) <==> if j == i then e.Some? && e.value.name == n else At(slots, j, n)
  {
  }

  lemma UpdateRepresents(slots: seq<Option<Entry>>, sems: map<string, Sem>, i: nat, sem: Sem)
    requires Represents(slots, sems) && i < |slots| && slots[i].Some?
    ensures var name := slots[i].value.name;
            name in sems && sems[name] == slots[i].value.sem
            && Represents(slots[i := Some(Entry(name, sem))], sems[name := sem])
  {
    var name := slots[i].value.name;
    assert At(slots, i, name);
    var e := Some(Entry(name, sem));
    var t := slots[i := e];
    forall j, n ensures At(t, j, n) <==> At(slots, j, n) { AtOthers(slots, i, e, j, n); }
    forall n | n in sems ensures exists j :: At(t, j, n) {
      var j :| At(slots, j, n);
      assert At(t, j, n);
    }
  }

  lemma InsertRepresents(slots: seq<Option<Entry>>, sems: map<string, Sem>, i: nat, name: string, sem: Sem)
    requires Represents(slots, sems) && i < |slots| && slots[i].None? && name !in sems
    ensures Represents(slots[i := Some(Entry(name, sem))], sems[name := sem]) && |sems[name := sem]| == |sems| + 1
  {
    var e := Some(Entry(name, sem));
    var t, all := slots[i := e], sems[name := sem];
    assert all.Keys == sems.Keys + {name};
    forall j, n ensures At(t, j, n) <==> At(slots, j, n) || (j == i && n == name) { AtOthers(slots, i, e, j, n); }
    assert At(t, i, name);
    forall n | n in all ensures exists j :: At(t, j, n) {
      if n != name {
        var j :| At(slots, j, n);
        assert At(t, j, n);
      }
    }
  }

  lemma RemoveRepresents(slots: seq<Option<Entry>>, sems: map<string, Sem>, i: nat)
    requires Represents(slots, sems) && i < |slots| && slots[i].Some?
    ensures var name := slots[i].value.name;
            name in sems && Represents(slots[i := None], sems - {name}) && |sems - {name}| == |sems| - 1
  {
    var name := slots[i].value.name;
    assert At(slots, i, name);
    var t, rest := slots[i := None], sems - {name};
    assert sems.Keys == rest.Keys + {name};
    forall j, n ensures At(t, j, n) <==> At(slots, j, n) && j != i { AtOthers(slots, i, None, j, n); }
    forall n | n in rest ensures exists j :: At(t, j, n) {
      var j :| At(slots, j, n);
      assert At(t, j, n);
    }
  }

  function Dropped(e: Option<Entry>, pid: int): Option<Entry> {
    if e.Some? then Some(e.value.(sem := Drop(e.value.sem, pid))) else None
  }

  function DroppedUpTo(was: seq<Option<Entry>>, i: nat, pid: int): seq<Option<Entry>> {
    seq(|was|, j requires 0 <= j < |was| => if j < i then Dropped(was[j], pid) else was[j])
  }

  lemma DroppedNone(was: seq<Option<Entry>>, pid: int)
    ensures DroppedUpTo(was, 0, pid) == was
  {
  }

  lemma DroppedNext(was: seq<Option<Entry>>, i: nat, pid: int)
    requires i < |was|
    ensures var now := DroppedUpTo(was, i, pid);
            now[i := Dropped(now[i], pid)] == DroppedUpTo(was, i + 1, pid)
  {
  }

  lemma DroppedRepresents(was: seq<Option<Entry>>, sems: map<string, Sem>, pid: int)
    requires Represents(was, sems)
    ensures Represents(DroppedUpTo(was, |was|, pid), DropFromAll(sems, pid)) && |DropFromAll(sems, pid)| == |sems|
  {
    var now, t := DroppedUpTo(was, |was|, pid), DropFromAll(sems, pid);
    assert t.Keys == sems.Keys;
    forall j, n ensures At(now, j, n) <==> At(was, j, n) { }
    forall n | n in t ensures exists j :: At(now, j, n) {
      var j :| At(was, j, n);
      assert At(now, j, n);
    }
  }

  /** In a table without empty slots there are as many names as slots. */
  lemma FullTable(slots: seq<Option<Entry>>, sems: map<string, Sem>)
    requires Represents(slots, sems) && forall i :: 0 <= i < |slots| ==> slots[i].Some?
    ensures |slots| <= |sems|
  {
    forall i | 0 <= i < |slots| ensures slots[i].value.name in sems.Keys {
      assert At(slots, i, slots[i].value.name);
    }
    forall i, j | 0 <= i < j < |slots| ensures slots[i].value.name != slots[j].value.name {
      assert At(slots, i, slots[i].value.name) && At(slots, j, slots[j].value.name);
    }
    SlotLeft(slots, sems.Keys);
  }

  /** As many names as filled slots: with fewer there is an empty one. */
  lemma {:induction false} SlotLeft(slots: seq<Option<Entry>>, keys: set<string>)
    requires forall i :: 0 <= i < |slots| ==> slots[i].Some? && slots[i].value.name in keys
    requires forall i, j :: 0 <= i < j < |slots| ==> slots[i].value.name != slots[j].value.name
    ensures |slots| <= |keys|
  {
    if slots != [] {
      var last := |slots| - 1;
      SlotLeft(slots[..last], keys - {slots[last].value.name});
    }
  }

  // ----- users -----

  ghost predicate InUse(k: Kernel) {
    forall name :: name in k.sems ==> k.sems[name].users >= 1
  }

  /** Nobody's semaphore is ever without a user. */
  lemma PerformKeepsInUse(k: Kernel, c: Call)
    requires InUse(k) && Sized(k.sched)
    ensures InUse(Perform(k, c))
  {
    var t := Perform(k, c);
    forall name | name in t.sems ensures t.sems[name].users >= 1 {
      assert name in k.sems ==> k.sems[name].users >= 1;
    }
  }

  /** Closing undoes opening, except when the open was refused because the table is full although the name is in it. */
  lemma CloseUndoesOpenIff(k: Kernel, name: string, initial: int, memory: bool)
    requires InUse(k) && Sized(k.sched)
    ensures Perform(Perform(k, Open(name, initial, memory)), Close(name)) == k
            <==> name !in k.sems || |k.sems| < MAX_SEMAPHORES
  {
    var t := Perform(k, Open(name, initial, memory));
    var u := Perform(t, Close(name));
    if name in k.sems {
      assert k.sems[name].users >= 1;
      if |k.sems| < MAX_SEMAPHORES {
        assert u.sems[name] == k.sems[name];
        assert u.sems == k.sems;
      } else {
        assert name !in u.sems || u.sems[name].users != k.sems[name].users;
      }
    } else {
      assert u.sems == k.sems;
    }
  }

  class Manager {
    const slots: array<Semaphore?>
    var count: nat
    ghost var view: seq<Option<Entry>>
    ghost var sems: map<string, Sem>
    ghost var Repr: set<object>

    /** Slot i holds a semaphore with its own ring, as the view shows it, or none. */
    ghost predicate Held(i: int)
      requires 0 <= i < slots.Length && i < |view|
      reads this`view, this`Repr, slots, Repr
    {
      match view[i]
      case None => slots[i] == null
      case Some(e) =>
        var sem := slots[i];
        && sem != null && sem in Repr && sem.queue in Repr && sem.queue.v in Repr
        && sem.Valid() && e == Entry(sem.name, sem.Value())
    }

    ghost predicate Separate(i: int, j: int)
      requires 0 <= i < slots.Length && 0 <= j < slots.Length
      reads slots
    {
      slots[i] != null && slots[j] != null ==>
        slots[i] != slots[j] && slots[i].queue != slots[j].queue && slots[i].queue.v != slots[j].queue.v
    }

    /** The objects behind the table. */
    ghost predicate Heap()
      reads this`view, this`Repr, slots, Repr
    {
      && slots.Length == MAX_SEMAPHORES == |view| && this !in Repr && slots !in Repr
      && (forall i :: 0 <= i < MAX_SEMAPHORES ==> Held(i))
      && (forall i, j :: 0 <= i < j < MAX_SEMAPHORES ==> Separate(i, j))
    }

    ghost predicate Valid()
      reads this, slots, Repr
    {
      Heap() && Represents(view, sems) && count == |sems|
    }

    ghost predicate Beside(tables: Tables)
      reads this`Repr
    {
      tables !in Repr && tables.procs !in Repr && tables.sleepers !in Repr
    }

    constructor ()
      ensures Valid() && sems == map[] && Repr == {} && fresh(slots)
    {
      slots := new Semaphore?[MAX_SEMAPHORES](_ => null);
      count, sems, Repr := 0, map[], {};
      view := seq(MAX_SEMAPHORES, _ => None);
    }

    // ----- one slot -----

    lemma OthersHeld(i: int, j: int)
      requires Heap() && 0 <= i < MAX_SEMAPHORES && 0 <= j < MAX_SEMAPHORES && i != j
      ensures Held(j) && Separate(i, j)
    {
      assert Separate(if i < j then i else j, if i < j then j else i);
    }

    method WaitAt(i: nat, tables: Tables) returns (ok: bool)
      requires Heap() && tables.Valid() && Beside(tables) && i < MAX_SEMAPHORES && view[i].Some?
      modifies this`view, Repr, tables, tables.procs, tables.sleepers
      ensures Heap() && tables.Valid()
      ensures var e := old(view)[i].value;
              var (s, sem) := SemaphoreModel.SemWait(old(tables.State()), e.sem);
              tables.State() == s && view == old(view)[i := Some(Entry(e.name, sem))]
              && ok == (e.sem.value > 0 || |e.sem.queue| < CAPACITY)
    {
      assert Held(i);
      forall j | 0 <= j < MAX_SEMAPHORES && j != i ensures Held(j) && Separate(i, j) { OthersHeld(i, j); }
      var sem := slots[i];
      label before:
      ok := sem.SemWait(tables);
      view := view[i := Some(Entry(sem.name, sem.Value()))];
      forall j | 0 <= j < MAX_SEMAPHORES && j != i ensures Held(j) { assert old@before(Held(j) && Separate(i, j)); }
    }

    method PostAt(i: nat, tables: Tables)
      requires Heap() && tables.Valid() && Beside(tables) && i < MAX_SEMAPHORES && view[i].Some?
      modifies this`view, Repr, tables.procs, tables.sleepers
      ensures Heap() && tables.Valid()
      ensures var e := old(view)[i].value;
              var (s, sem) := SemaphoreModel.SemPost(old(tables.State()), e.sem);
              tables.State() == s && view == old(view)[i := Some(Entry(e.name, sem))]
    {
      assert Held(i);
      forall j | 0 <= j < MAX_SEMAPHORES && j != i ensures Held(j) && Separate(i, j) { OthersHeld(i, j); }
      var sem := slots[i];
      label before:
      sem.SemPost(tables);
      view := view[i := Some(Entry(sem.name, sem.Value()))];
      forall j | 0 <= j < MAX_SEMAPHORES && j != i ensures Held(j) { assert old@before(Held(j) && Separate(i, j)); }
    }

    method DropAt(i: nat, pid: int)
      requires Heap() && i < MAX_SEMAPHORES
      modifies this`view, Repr
      ensures Heap() && view == old(view)[i := Dropped(old(view)[i], pid)]
    {
      assert Held(i);
      forall j | 0 <= j < MAX_SEMAPHORES && j != i ensures Held(j) && Separate(i, j) { OthersHeld(i, j); }
      var sem := slots[i];
      label before:
      if sem != null {
        sem.RemoveProcess(pid);
        view := view[i := Some(Entry(sem.name, sem.Value()))];
        forall j | 0 <= j < MAX_SEMAPHORES && j != i ensures Held(j) { assert old@before(Held(j) && Separate(i, j)); }
      }
    }

    method AddUser(i: nat, d: int)
      requires Heap() && i < MAX_SEMAPHORES && view[i].Some?
      modifies this`view, Repr
      ensures Heap()
      ensures var e := old(view)[i].value; view == old(view)[i := Some(Entry(e.name, e.sem.(users := e.sem.users + d)))]
    {
      assert Held(i);
      forall j | 0 <= j < MAX_SEMAPHORES && j != i ensures Held(j) && Separate(i, j) { OthersHeld(i, j); }
      var sem := slots[i];
      label before:
      sem.users := sem.users + d;
      view := view[i := Some(Entry(sem.name, sem.Value()))];
      forall j | 0 <= j < MAX_SEMAPHORES && j != i ensures Held(j) { assert old@before(Held(j) && Separate(i, j)); }
    }

    method Install(i: nat, name: string, initial: int)
      requires Heap() && i < MAX_SEMAPHORES && view[i].None?
      modifies this`view, this`Repr, slots
      ensures Heap() && fresh(Repr - old(Repr)) && view == old(view)[i := Some(Entry(name, Sem(initial, 1, [])))]
    {
      forall j | 0 <= j < MAX_SEMAPHORES && j != i ensures Held(j) { OthersHeld(i, j); }
      assert view[i].None? && Held(i);
      var sem := new Semaphore(initial, name);
      slots[i] := sem;
      Repr := Repr + {sem, sem.queue, sem.queue.v};
      view := view[i := Some(Entry(name, Sem(initial, 1, [])))];
      forall j | 0 <= j < MAX_SEMAPHORES && j != i ensures Held(j) { assert old(Held(j)); }
      forall j, k | 0 <= j < k < MAX_SEMAPHORES ensures Separate(j, k) {
        assert old(Separate(j, k) && Held(j) && Held(k));
      }
    }

    method Discard(i: nat)
      requires Heap() && i < MAX_SEMAPHORES
      modifies this`view, slots
      ensures Heap() && view == old(view)[i := None]
    {
      forall j | 0 <= j < MAX_SEMAPHORES && j != i ensures Held(j) { OthersHeld(i, j); }
      slots[i] := null;
      view := view[i := None];
      forall j | 0 <= j < MAX_SEMAPHORES && j != i ensures Held(j) { assert old(Held(j)); }
      forall j, k | 0 <= j < k < MAX_SEMAPHORES ensures Separate(j, k) { assert old(Separate(j, k)); }
    }

    method GetIdxByName(name: string) returns (i: int)
      requires Heap()
      ensures i == -1 ==> forall j :: !At(view, j, name)
      ensures i != -1 ==> At(view, i, name)
    {
      i := 0;
      while i < MAX_SEMAPHORES
        invariant 0 <= i <= MAX_SEMAPHORES
        invariant forall j :: 0 <= j < i ==> !At(view, j, name)
      {
        assert Held(i);
        if slots[i] != null && slots[i].name == name { return i; }
        i := i + 1;
      }
      i := -1;
    }

    method GetFreeId() returns (i: int)
      requires Heap()
      ensures i == -1 ==> forall j :: 0 <= j < MAX_SEMAPHORES ==> view[j].Some?
      ensures i != -1 ==> 0 <= i < MAX_SEMAPHORES && view[i].None?
    {
      i := 0;
      while i < MAX_SEMAPHORES
        invariant 0 <= i <= MAX_SEMAPHORES
        invariant forall j :: 0 <= j < i ==> view[j].Some?
      {
        assert Held(i);
        if slots[i] == null { return i; }
        i := i + 1;
      }
      i := -1;
    }

    // ----- by name -----

    /** The view and the map after a change of slot i. */
    ghost method Recorded(i: nat, sem: Sem, was: seq<Option<Entry>>)
      requires i < |was| && was[i].Some? && Represents(was, sems) && view == was[i := Some(Entry(was[i].value.name, sem))]
      modifies this`sems
      ensures was[i].value.name in old(sems) && old(sems)[was[i].value.name] == was[i].value.sem
      ensures sems == old(sems)[was[i].value.name := sem] && Represents(view, sems) && |sems| == |old(sems)|
    {
      UpdateRepresents(was, sems, i, sem);
      assert sems[was[i].value.name := sem].Keys == sems.Keys;
      sems := sems[was[i].value.name := sem];
    }

    ghost method Added(i: nat, name: string, sem: Sem, was: seq<Option<Entry>>)
      requires i < |was| && was[i].None? && Represents(was, sems) && name !in sems && view == was[i := Some(Entry(name, sem))]
      modifies this`sems
      ensures sems == old(sems)[name := sem] && Represents(view, sems) && |sems| == |old(sems)| + 1
    {
      InsertRepresents(was, sems, i, name, sem);
      sems := sems[name := sem];
    }

    ghost method Forgotten(i: nat, was: seq<Option<Entry>>)
      requires i < |was| && was[i].Some? && Represents(was, sems) && view == was[i := None]
      modifies this`sems
      ensures sems == old(sems) - {was[i].value.name} && Represents(view, sems) && |sems| == |old(sems)| - 1
    {
      RemoveRepresents(was, sems, i);
      sems := sems - {was[i].value.name};
    }

    /** The slot of an open name. */
    method Lookup(name: string) returns (i: int)
      requires Valid()
      ensures i == -1 <==> name !in sems
      ensures i != -1 ==> At(view, i, name) && view[i].value.sem == sems[name]
    {
      i := GetIdxByName(name);
    }

    method ChangeUsers(i: nat, d: int)
      requires Valid() && i < MAX_SEMAPHORES && view[i].Some?
      modifies this`view, this`sems, Repr
      ensures var e := old(view)[i].value; Valid() && sems == old(sems)[e.name := e.sem.(users := e.sem.users + d)]
    {
      ghost var was := view;
      ghost var sem := was[i].value.sem;
      AddUser(i, d);
      assert sems == old(sems);
      Recorded(i, sem.(users := sem.users + d), was);
    }

    /** memory says whether my_malloc finds room for a new semaphore. */
    method SemOpen(name: string, initial: int, memory: bool, ghost s: Sched) returns (ok: bool)
      requires Valid() && Sized(s)
      modifies this, slots, Repr
      ensures Valid() && fresh(Repr - old(Repr))
      ensures sems == Perform(Kernel(s, old(sems)), Open(name, initial, memory)).sems
      ensures ok <==> |old(sems)| < MAX_SEMAPHORES && (name in old(sems) || memory)
    {
      if count >= MAX_SEMAPHORES { return false; }
      var idx := Lookup(name);
      if idx != -1 {
        ChangeUsers(idx, 1);
        return true;
      }
      ok := CreateNew(name, initial, memory);
    }

    method CreateNew(name: string, initial: int, memory: bool) returns (ok: bool)
      requires Valid() && count < MAX_SEMAPHORES && name !in sems
      modifies this, slots, Repr
      ensures Valid() && fresh(Repr - old(Repr))
      ensures ok == memory && sems == if memory then old(sems)[name := Sem(initial, 1, [])] else old(sems)
    {
      var id := FreeSlot();
      if !memory { return false; }
      CreateAt(id, name, initial);
      ok := true;
    }

    /** Below the limit there is a free slot. */
    method FreeSlot() returns (i: int)
      requires Valid() && count < MAX_SEMAPHORES
      ensures 0 <= i < MAX_SEMAPHORES && view[i].None?
    {
      i := GetFreeId();
      if i == -1 { FullTable(view, sems); }
    }

    method CreateAt(i: nat, name: string, initial: int)
      requires Valid() && i < MAX_SEMAPHORES && view[i].None? && name !in sems
      modifies this`view, this`sems, this`count, this`Repr, slots
      ensures Valid() && fresh(Repr - old(Repr)) && sems == old(sems)[name := Sem(initial, 1, [])]
    {
      ghost var was := view;
      Install(i, name, initial);
      assert view == was[i := Some(Entry(name, Sem(initial, 1, [])))];
      count := count + 1;
      assert sems == old(sems);
      Added(i, name, Sem(initial, 1, []), was);
    }

    method SemClose(name: string, ghost s: Sched) returns (ok: bool)
      requires Valid() && Sized(s)
      modifies this, slots, Repr
      ensures Valid() && Repr == old(Repr)
      ensures sems == Perform(Kernel(s, old(sems)), Close(name)).sems
      ensures ok <==> name in old(sems)
    {
      var idx := Lookup(name);
      if idx == -1 { return false; }
      assert Held(idx);
      if slots[idx].users > 1 {
        ChangeUsers(idx, -1);
      } else {
        Vacate(idx);
      }
      ok := true;
    }

    method Vacate(i: nat)
      requires Valid() && i < MAX_SEMAPHORES && view[i].Some?
      modifies this`view, this`sems, this`count, slots
      ensures Valid() && sems == old(sems) - {old(view)[i].value.name}
    {
      ghost var was := view;
      Discard(i);
      Forgotten(i, was);
      count := count - 1;
    }

    method SemWait(name: string, tables: Tables) returns (ok: bool)
      requires Valid() && tables.Valid() && Beside(tables)
      modifies this, Repr, tables, tables.procs, tables.sleepers
      ensures Valid() && tables.Valid() && Repr == old(Repr)
      ensures Kernel(tables.State(), sems) == Perform(Kernel(old(tables.State()), old(sems)), WaitOn(name))
      ensures ok <==> name in old(sems) && Wait(old(sems)[name], old(tables.current)).1 != Refused
    {
      var idx := Lookup(name);
      if idx == -1 { return false; }
      ok := WaitIn(idx, tables);
    }

    method WaitIn(i: nat, tables: Tables) returns (ok: bool)
      requires Valid() && tables.Valid() && Beside(tables) && i < MAX_SEMAPHORES && view[i].Some?
      modifies this`view, this`sems, Repr, tables, tables.procs, tables.sleepers
      ensures var e := old(view)[i].value;
              var (s, sem) := SemaphoreModel.SemWait(old(tables.State()), e.sem);
              && Valid() && tables.Valid() && tables.State() == s && sems == old(sems)[e.name := sem]
              && ok == (e.sem.value > 0 || |e.sem.queue| < CAPACITY)
    {
      ghost var was := view;
      ghost var sem := SemaphoreModel.SemWait(tables.State(), was[i].value.sem).1;
      ok := WaitAt(i, tables);
      assert sems == old(sems);
      Recorded(i, sem, was);
    }

    method SemPost(name: string, tables: Tables) returns (ok: bool)
      requires Valid() && tables.Valid() && Beside(tables)
      modifies this, Repr, tables.procs, tables.sleepers
      ensures Valid() && tables.Valid() && Repr == old(Repr)
      ensures Kernel(tables.State(), sems) == Perform(Kernel(old(tables.State()), old(sems)), PostTo(name))
      ensures ok <==> name in old(sems)
    {
      var idx := Lookup(name);
      if idx == -1 { return false; }
      PostIn(idx, tables);
      ok := true;
    }

    method PostIn(i: nat, tables: Tables)
      requires Valid() && tables.Valid() && Beside(tables) && i < MAX_SEMAPHORES && view[i].Some?
      modifies this`view, this`sems, Repr, tables.procs, tables.sleepers
      ensures var e := old(view)[i].value;
              var (s, sem) := SemaphoreModel.SemPost(old(tables.State()), e.sem);
              Valid() && tables.Valid() && tables.State() == s && sems == old(sems)[e.name := sem]
    {
      ghost var was := view;
      ghost var sem := SemaphoreModel.SemPost(tables.State(), was[i].value.sem).1;
      PostAt(i, tables);
      assert sems == old(sems);
      Recorded(i, sem, was);
    }

    /** Every queue loses pid. */
    method RemoveFromAll(pid: int)
      requires Valid()
      modifies this, Repr
      ensures Valid() && Repr == old(Repr) && sems == DropFromAll(old(sems), pid)
    {
      var i := 0;
      ghost var was := view;
      DroppedNone(was, pid);
      while i < MAX_SEMAPHORES
        modifies this`view, Repr
        invariant 0 <= i <= MAX_SEMAPHORES && Heap()
        invariant view == DroppedUpTo(was, i, pid)
      {
        DroppedNext(was, i, pid);
        DropAt(i, pid);
        i := i + 1;
      }
      DroppedRepresents(was, sems, pid);
      sems := DropFromAll(sems, pid);
    }

    /** killProcess before the end-of-file byte, with the clean-up of the queues. */
    method CleanUp(pid: int, tables: Tables)
      requires Valid() && tables.Valid() && Beside(tables)
      modifies this, Repr, tables.procs, tables.sleepers
      ensures Valid() && tables.Valid() && Repr == old(Repr)
      ensures Kernel(tables.State(), sems) == Perform(Kernel(old(tables.State()), old(sems)), Clean(pid))
    {
      if pid < 0 || pid >= MAX_PROCESSES || tables.procs[pid].None? || tables.procs[pid].value.unkillable { return; }
      tables.CleanUp(pid);
      RemoveFromAll(pid);
    }

    /** killProcess of a process whose output is no open pipe. */
    method KillProcess(pid: int, tables: Tables)
      requires Valid() && tables.Valid() && Beside(tables) && Exists(tables.State(), tables.current)
      modifies this, Repr, tables, tables.procs, tables.sleepers
      ensures Valid() && tables.Valid() && Repr == old(Repr)
      ensures Kernel(tables.State(), sems) == Perform(Kernel(old(tables.State()), old(sems)), Sys(KillCall(pid)))
    {
      if pid < 0 || pid >= MAX_PROCESSES || tables.procs[pid].None? || tables.procs[pid].value.unkillable {
        tables.KillProcess(pid);
        return;
      }
      RemoveFromAll(pid);
      tables.KillProcess(pid);
    }

    /** killProcess after the end-of-file byte. */
    method FinishKill(pid: nat, tables: Tables)
      requires Valid() && tables.Valid() && Beside(tables) && pid < MAX_PROCESSES
      modifies tables, tables.procs, tables.sleepers
      ensures Valid() && tables.Valid()
      ensures tables.State() == KernelModel.FinishKill(old(tables.State()), pid)
    {
      tables.FinishKill(pid);
    }
  }
}
