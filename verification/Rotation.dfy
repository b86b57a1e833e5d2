/** Rounds of the scheduler while nobody wakes, blocks or yields: who runs at which tick. */
module Rotation {
  import opened Common
  import opened KernelModel
  import opened SchedulerTheorems
  import opened Fairness

  // ----- round robin over shares -----

  /** Who runs, and how many more ticks of the turn there are. */
  datatype Turn = Turn(current: int, left: nat)

  /** The ticks the first d slots from i on have in a round; with all 64, the length of a round. */
  function Shares(share: seq<nat>, i: int, d: nat): nat
    requires |share| == MAX_PROCESSES && 0 <= i < MAX_PROCESSES && d <= MAX_PROCESSES
  {
    if d == 0 then 0 else Shares(share, i, d - 1) + share[SlotAfter(i, d - 1)]
  }

  /** y is the turn one tick after x: the turn goes on, or the next slot with a share begins. */
  predicate Follows(share: seq<nat>, x: Turn, y: Turn)
    requires |share| == MAX_PROCESSES
  {
    && 0 <= x.current < MAX_PROCESSES && 0 <= y.current < MAX_PROCESSES
    && if x.left > 0 then y == Turn(x.current, x.left - 1)
       else y.left + 1 == share[y.current] && NextSlot(share, x.current, y.current)
  }

  /** j is the first slot after c with a share, going round; it may be c itself. */
  predicate NextSlot(share: seq<nat>, c: int, j: int)
    requires |share| == MAX_PROCESSES && 0 <= c < MAX_PROCESSES && 0 <= j < MAX_PROCESSES
  {
    forall k: nat :: 0 < k < Gap(c, j) ==> share[SlotAfter(c, k)] == 0
  }

  /** How many slots j comes after c; a whole round when they are the same. */
  function Gap(c: int, j: int): (g: nat)
    requires 0 <= c < MAX_PROCESSES && 0 <= j < MAX_PROCESSES
    ensures 0 < g <= MAX_PROCESSES && SlotAfter(c, g) == j
  {
    if c < j then j - c else j - c + MAX_PROCESSES
  }

  predicate RoundRobin(share: seq<nat>, turns: seq<Turn>)
    requires |share| == MAX_PROCESSES
  {
    forall k :: 0 <= k < |turns| - 1 ==> Follows(share, turns[k], turns[k + 1])
  }

  /** The turn of its process is just beginning. */
  predicate Begins(share: seq<nat>, x: Turn)
    requires |share| == MAX_PROCESSES
  {
    0 <= x.current < MAX_PROCESSES && x.left + 1 == share[x.current]
  }

  /** The first slot with a share, d places after i or later; i itself closes the round. */
  function First(share: seq<nat>, i: int, d: nat): (e: nat)
    requires |share| == MAX_PROCESSES && 0 <= i < MAX_PROCESSES && d <= MAX_PROCESSES
    ensures d <= e <= MAX_PROCESSES && (e < MAX_PROCESSES ==> share[SlotAfter(i, e)] > 0)
    ensures forall k: nat :: d <= k < e ==> share[SlotAfter(i, k)] == 0
    decreases MAX_PROCESSES - d
  {
    if d == MAX_PROCESSES || share[SlotAfter(i, d)] > 0 then d else First(share, i, d + 1)
  }

  lemma {:induction false} WithinTurn(share: seq<nat>, turns: seq<Turn>, m: nat, n: nat)
    requires |share| == MAX_PROCESSES && RoundRobin(share, turns) && m + n < |turns| && n <= turns[m].left
    ensures turns[m + n] == Turn(turns[m].current, turns[m].left - n)
  {
    if n > 0 {
      WithinTurn(share, turns, m, n - 1);
      assert Follows(share, turns[m + n - 1], turns[m + n - 1 + 1]);
    }
  }

  /** The slot found after d is the first with a share from d + 1 on. */
  lemma NextIsFirst(share: seq<nat>, i: int, d: nat, j: int)
    requires |share| == MAX_PROCESSES && 0 <= i < MAX_PROCESSES && d < MAX_PROCESSES && 0 <= j < MAX_PROCESSES
    requires share[i] > 0 && share[j] > 0 && share[SlotAfter(i, d)] > 0 && NextSlot(share, SlotAfter(i, d), j)
    ensures j == SlotAfter(i, First(share, i, d + 1))
  {
    var c, e := SlotAfter(i, d), First(share, i, d + 1);
    var g := Gap(c, j);
    assert SlotAfter(i, MAX_PROCESSES) == i;
    assert SlotAfter(c, e - d) == SlotAfter(i, e) && share[SlotAfter(c, e - d)] > 0;
    assert g <= e - d;
    assert SlotAfter(c, g) == SlotAfter(i, d + g) && share[SlotAfter(i, d + g)] > 0;
    assert g >= e - d;
  }

  /** When the d slots before it have had their shares, the next slot with a share begins its turn. */
  lemma {:induction false} TurnBegins(share: seq<nat>, turns: seq<Turn>, d: nat)
    requires |share| == MAX_PROCESSES && RoundRobin(share, turns) && turns != [] && Begins(share, turns[0])
    requires d <= MAX_PROCESSES && Shares(share, turns[0].current, d) < |turns|
    ensures var i := turns[0].current; var x := turns[Shares(share, i, d)];
            Begins(share, x) && x.current == SlotAfter(i, First(share, i, d))
  {
    var i := turns[0].current;
    if d > 0 {
      TurnBegins(share, turns, d - 1);
      var j := SlotAfter(i, d - 1);
      if share[j] > 0 {
        var m := Shares(share, i, d - 1);
        WithinTurn(share, turns, m, turns[m].left);
        var y := turns[m + turns[m].left + 1];
        assert Follows(share, turns[m + turns[m].left], y);
        NextIsFirst(share, i, d - 1, y.current);
      }
    }
  }

  lemma {:induction false} SharesGrow(share: seq<nat>, i: int, d: nat, e: nat)
    requires |share| == MAX_PROCESSES && 0 <= i < MAX_PROCESSES && d <= e <= MAX_PROCESSES
    ensures Shares(share, i, d) <= Shares(share, i, e)
    decreases e
  {
    if d < e { SharesGrow(share, i, d, e - 1); }
  }

  /** The slot whose share of the round holds tick n. */
  lemma {:induction false} Holder(share: seq<nat>, i: int, d: nat, n: nat) returns (e: nat)
    requires |share| == MAX_PROCESSES && 0 <= i < MAX_PROCESSES && d <= MAX_PROCESSES && n < Shares(share, i, d)
    ensures e < d && Shares(share, i, e) <= n < Shares(share, i, e + 1)
  {
    if n >= Shares(share, i, d - 1) { e := d - 1; } else { e := Holder(share, i, d - 1, n); }
  }

  lemma DuringTurn(share: seq<nat>, turns: seq<Turn>, d: nat, n: nat)
    requires |share| == MAX_PROCESSES && RoundRobin(share, turns) && n < |turns| && Begins(share, turns[0])
    requires d < MAX_PROCESSES && Shares(share, turns[0].current, d) <= n < Shares(share, turns[0].current, d + 1)
    ensures turns[n].current == SlotAfter(turns[0].current, d)
  {
    TurnBegins(share, turns, d);
    var m := Shares(share, turns[0].current, d);
    WithinTurn(share, turns, m, n - m);
  }

  /** In the first round the slot d places on is current exactly in the ticks of its share. */
  lemma FirstRound(share: seq<nat>, turns: seq<Turn>, d: nat, n: nat)
    requires |share| == MAX_PROCESSES && RoundRobin(share, turns) && n < |turns| && Begins(share, turns[0])
    requires d < MAX_PROCESSES && n < Shares(share, turns[0].current, MAX_PROCESSES)
    ensures turns[n].current == SlotAfter(turns[0].current, d)
            <==> Shares(share, turns[0].current, d) <= n < Shares(share, turns[0].current, d + 1)
  {
    var i := turns[0].current;
    var e := Holder(share, i, MAX_PROCESSES, n);
    DuringTurn(share, turns, e, n);
    assert e != d ==> SlotAfter(i, e) != SlotAfter(i, d);
    if e < d { SharesGrow(share, i, e + 1, d); }
    if d < e { SharesGrow(share, i, d + 1, e); }
  }

  function Times(r: nat, n: nat): nat {
    if r == 0 then 0 else n + Times(r - 1, n)
  }

  lemma {:induction false} TimesIs(r: nat, n: nat)
    ensures Times(r, n) == r * n
  {
    if r > 0 {
      TimesIs(r - 1, n);
      assert r * n == n + (r - 1) * n;
    }
  }

  lemma RestRoundRobin(share: seq<nat>, turns: seq<Turn>, m: nat)
    requires |share| == MAX_PROCESSES && RoundRobin(share, turns) && m <= |turns|
    ensures RoundRobin(share, turns[m..])
  {
    var rest := turns[m..];
    forall k | 0 <= k < |rest| - 1 ensures Follows(share, rest[k], rest[k + 1]) {
      assert Follows(share, turns[m + k], turns[m + k + 1]);
    }
  }

  /** And in every later round. */
  lemma {:induction false} LaterRound(share: seq<nat>, turns: seq<Turn>, i: int, round: nat, r: nat, d: nat, n: nat)
    requires |share| == MAX_PROCESSES && RoundRobin(share, turns) && turns != [] && Begins(share, turns[0]) && d < MAX_PROCESSES
    requires i == turns[0].current && round == Shares(share, i, MAX_PROCESSES) && n < round && Times(r, round) + n < |turns|
    ensures turns[Times(r, round) + n].current == SlotAfter(i, d) <==> Shares(share, i, d) <= n < Shares(share, i, d + 1)
    decreases r
  {
    if r == 0 {
      FirstRound(share, turns, d, n);
    } else {
      TurnBegins(share, turns, MAX_PROCESSES);
      RestRoundRobin(share, turns, round);
      LaterRound(share, turns[round..], i, round, r - 1, d, n);
    }
  }

  // ----- the scheduler does round robin -----

  predicate Runnable(s: Sched, j: int) {
    HasStatus(s, j, Ready) || HasStatus(s, j, Running)
  }

  /** Nobody is woken in the next m ticks. */
  predicate Quiet(s: Sched, m: nat) {
    forall i :: 0 <= i < |s.sleepers| && Active(s.sleepers[i]) ==> s.ticks + m < s.sleepers[i].endTick < UINT64
  }

  /** The running process has just been dispatched. */
  predicate Fresh(s: Sched) {
    Exists(s, s.current) && s.procs[s.current].value.quantum == s.procs[s.current].value.priority
  }

  /** The share of a runnable process is priority + 1 ticks; others have none. */
  function Share(s: Sched, j: int): nat {
    if Runnable(s, j) then s.procs[j].value.priority + 1 else 0
  }

  function ShareTable(s: Sched): (share: seq<nat>)
    ensures |share| == MAX_PROCESSES && forall j :: 0 <= j < MAX_PROCESSES ==> share[j] == Share(s, j)
  {
    seq(MAX_PROCESSES, j requires 0 <= j < MAX_PROCESSES => Share(s, j))
  }

  function TurnOf(s: Sched): Turn {
    Turn(s.current, QuantumLeft(s))
  }

  // ----- one tick -----

  lemma {:induction false} QuietScan(s: Sched, i: nat)
    requires Sized(s) && Quiet(s, 0) && i <= MAX_PROCESSES
    ensures WakeFrom(s, i) == s.(nextCheck := WakeFrom(s, i).nextCheck)
    decreases MAX_PROCESSES - i
  {
    if i < MAX_PROCESSES { QuietScan(WakeSlot(s, i), i + 1); }
  }

  lemma QuietWakes(s: Sched, m: nat)
    requires Sized(s) && Quiet(s, m + 1)
    ensures AfterWakes(s).procs == s.procs && AfterWakes(s).sleepers == s.sleepers && Quiet(AfterWakes(s), m)
    ensures AfterWakes(s).current == s.current && AfterWakes(s).force == s.force
  {
    var u := s.(ticks := Later(s.ticks, 1));
    assert forall i :: 0 <= i < |s.sleepers| && Active(s.sleepers[i]) ==> u.ticks == s.ticks + 1;
    QuietScan(u.(nextCheck := UINT64_MAX), 0);
  }

  predicate ReadyAt(procs: seq<Option<Proc>>, j: int) {
    0 <= j < |procs| && procs[j].Some? && procs[j].value.status == Ready
  }

  /** The slot found is the first READY one. */
  lemma {:induction false} NextReadySkips(procs: seq<Option<Proc>>, idx: nat, n: nat) returns (m: nat)
    requires |procs| == MAX_PROCESSES && idx < MAX_PROCESSES && n <= MAX_PROCESSES && NextReady(procs, idx, n) != NO_PID
    ensures m < n && NextReady(procs, idx, n) == SlotAfter(idx, m)
    ensures forall k: nat :: k < m ==> !ReadyAt(procs, SlotAfter(idx, k))
    decreases n
  {
    if ReadyAt(procs, idx) {
      m := 0;
    } else {
      var next := SlotAfter(idx, 1);
      assert next == (idx + 1) % MAX_PROCESSES;
      var l := NextReadySkips(procs, next, n - 1);
      m := l + 1;
      forall k: nat | k < m ensures !ReadyAt(procs, SlotAfter(idx, k)) {
        assert k > 0 ==> SlotAfter(idx, k) == SlotAfter(next, k - 1);
      }
    }
  }

  lemma PreemptTable(v: Sched)
    requires Mid(v) && HasStatus(v, v.current, Running)
    ensures forall j :: 0 <= j < MAX_PROCESSES ==> (HasStatus(Preempt(v), j, Ready) <==> Runnable(v, j))
    ensures ShareTable(Preempt(v)) == ShareTable(v)
  {
    forall j | 0 <= j < MAX_PROCESSES ensures HasStatus(Preempt(v), j, Ready) <==> Runnable(v, j) {
      assert SlotOk(v, j);
    }
    forall j | 0 <= j < MAX_PROCESSES ensures Share(Preempt(v), j) == Share(v, j) {
      assert SlotOk(v, j);
    }
    assert ShareTable(Preempt(v)) == ShareTable(v);
  }

  lemma DispatchTable(u: Sched, j: nat, quantum: nat)
    requires Sized(u) && HasStatus(u, j, Ready)
    ensures ShareTable(Dispatch(u, j, quantum)) == ShareTable(u)
  {
    var t := Dispatch(u, j, quantum);
    forall k | 0 <= k < MAX_PROCESSES ensures Share(t, k) == Share(u, k) { }
    assert ShareTable(t) == ShareTable(u);
  }

  /** The turn goes on. */
  lemma GoOn(v: Sched)
    requires Mid(v) && HasStatus(v, v.current, Running) && QuantumLeft(v) > 0 && !v.force
    ensures var t := Schedule(v);
            && TurnOf(t) == Turn(v.current, QuantumLeft(v) - 1) && t.sleepers == v.sleepers && t.ticks == v.ticks && ShareTable(t) == ShareTable(v)
  {
    ScheduleChooses(v);
    PreemptTable(v);
    DispatchTable(Preempt(v), v.current, QuantumLeft(v) - 1);
  }

  lemma FoundIsNext(share: seq<nat>, c: int, m: nat)
    requires |share| == MAX_PROCESSES && 0 <= c < MAX_PROCESSES && m < MAX_PROCESSES
    requires forall k: nat :: k < m ==> share[SlotAfter(ScanStart(c), k)] == 0
    ensures 0 <= SlotAfter(ScanStart(c), m) < MAX_PROCESSES && NextSlot(share, c, SlotAfter(ScanStart(c), m))
  {
    var j := SlotAfter(ScanStart(c), m);
    assert Gap(c, j) == m + 1;
    forall k: nat | 0 < k < m + 1 ensures share[SlotAfter(c, k)] == 0 {
      assert SlotAfter(c, k) == SlotAfter(ScanStart(c), k - 1);
    }
  }

  /** The processor passes to the next runnable slot, which may be the same. */
  lemma PassOn(v: Sched)
    requires Mid(v) && HasStatus(v, v.current, Running) && QuantumLeft(v) == 0
    ensures var t := Schedule(v);
            && t.sleepers == v.sleepers && t.ticks == v.ticks && ShareTable(t) == ShareTable(v)
            && Follows(ShareTable(v), TurnOf(v), TurnOf(t))
  {
    ScheduleChooses(v);
    PreemptTable(v);
    var u := Preempt(v);
    var start := ScanStart(v.current);
    var m := NextReadySkips(u.procs, start, |u.procs|);
    var j := SlotAfter(start, m);
    forall k: nat | k < m ensures ShareTable(v)[SlotAfter(start, k)] == 0 {
      assert !ReadyAt(u.procs, SlotAfter(start, k));
    }
    FoundIsNext(ShareTable(v), v.current, m);
    DispatchTable(u, j, u.procs[j].value.priority);
  }

  lemma QuietTick(s: Sched, m: nat)
    requires Inv(s) && Quiet(s, m + 1)
    ensures var t := TimerHandler(s);
            Inv(t) && Quiet(t, m) && ShareTable(t) == ShareTable(s) && Follows(ShareTable(s), TurnOf(s), TurnOf(t))
  {
    TimerRestoresInv(s);
    HandlerShape(s);
    QuietWakes(s, m);
    var v := AfterWakes(s);
    assert ShareTable(v) == ShareTable(s);
    if QuantumLeft(s) > 0 { GoOn(v); } else { PassOn(v); }
  }

  // ----- runs of ticks -----

  function TurnsOf(s: Sched, n: nat): (turns: seq<Turn>)
    requires Sized(s)
    ensures |turns| == n + 1 && turns[0] == TurnOf(s) && turns[n] == TurnOf(Ticks(s, n))
  {
    if n == 0 then [TurnOf(s)] else TurnsOf(s, n - 1) + [TurnOf(Ticks(s, n))]
  }

  lemma {:induction false} TicksRoundRobin(s: Sched, n: nat, m: nat)
    requires Inv(s) && Quiet(s, n + m)
    ensures Inv(Ticks(s, n)) && Quiet(Ticks(s, n), m) && ShareTable(Ticks(s, n)) == ShareTable(s)
    ensures RoundRobin(ShareTable(s), TurnsOf(s, n))
    decreases n
  {
    if n > 0 {
      TicksRoundRobin(s, n - 1, m + 1);
      QuietTick(Ticks(s, n - 1), m);
      Extended(ShareTable(s), TurnsOf(s, n - 1), TurnOf(Ticks(s, n)));
    }
  }

  lemma Extended(share: seq<nat>, turns: seq<Turn>, x: Turn)
    requires |share| == MAX_PROCESSES && RoundRobin(share, turns) && turns != [] && Follows(share, turns[|turns| - 1], x)
    ensures RoundRobin(share, turns + [x])
  {
  }

  /** The ticks from s on are a round-robin sequence that begins with a turn. */
  lemma TurnsFrom(s: Sched, n: nat) returns (share: seq<nat>, turns: seq<Turn>)
    requires Inv(s) && Fresh(s) && Quiet(s, n)
    ensures share == ShareTable(s) && RoundRobin(share, turns) && |turns| == n + 1 && Begins(share, turns[0])
    ensures turns[0].current == s.current && turns[n].current == Ticks(s, n).current
  {
    TicksRoundRobin(s, n, 0);
    share, turns := ShareTable(s), TurnsOf(s, n);
  }

  /**
   From a dispatch on, with nothing but ticks and no sleeper due by then, in every round r: the slot d places on is
   current exactly in the ticks of its share, which are priority + 1 for a runnable process and none otherwise, and
   which follow one another in slot order. A round has as many ticks as all shares together, so after it the process
   that began it is dispatched again.
   */
  lemma EveryRound(s: Sched, r: nat, d: nat, n: nat)
    requires Inv(s) && Fresh(s) && d < MAX_PROCESSES && n < Shares(ShareTable(s), s.current, MAX_PROCESSES)
    requires Quiet(s, r * Shares(ShareTable(s), s.current, MAX_PROCESSES) + n)
    ensures var share, i := ShareTable(s), s.current;
            Ticks(s, r * Shares(share, i, MAX_PROCESSES) + n).current == SlotAfter(i, d)
            <==> Shares(share, i, d) <= n < Shares(share, i, d + 1)
  {
    var share, i := ShareTable(s), s.current;
    var round := Shares(share, i, MAX_PROCESSES);
    TimesIs(r, round);
    var table, turns := TurnsFrom(s, Times(r, round) + n);
    LaterRound(table, turns, i, round, r, d, n);
  }
}
