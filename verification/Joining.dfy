/** What philosophers who join at any time can and cannot break. */
module Joining {
  import SemaphoreModel
  import opened Philosophers

  // ----- no deadlock -----

  predicate AllHungry(t: Table) {
    |t.mood| > 0 && forall i :: 0 <= i < |t.mood| ==> t.mood[i] == Hungry
  }

  /** When all are hungry, one of them is inside and about to test itself. */
  ghost predicate OneTests(t: Table) {
    AllHungry(t) ==> exists h: nat :: h < |t.at| && t.at[h] == Hungered
  }

  /** If a move leaves all hungry, it is the move that made the last one hungry, or a wait of one who already was. */
  lemma AllHungryAfter(t: Table, i: nat)
    requires Inv(t) && OneTests(t) && i < |t.at| && !Blocked(t.at[i])
    ensures AllHungry(Move(t, i)) ==> t.at[i] == InFirst || (t.at[i] == AskOwn && AllHungry(t))
  {
    var u := Move(t, i);
    assert MoodFits(t.at[i], t.mood[i]);
    if AllHungry(t) {
      var h: nat :| h < |t.at| && t.at[h] == Hungered;
      assert Holding(t.at[h]);
      assert Holding(t.at[i]) ==> i == h;
    }
    MoveMoods(t, i);
  }

  /** A move changes one mood at most, and only the entry into the mutex makes anybody hungry. */
  lemma MoveMoods(t: Table, i: nat)
    requires Shape(t) && i < |t.at| && !Blocked(t.at[i])
    ensures |Move(t, i).mood| == |t.mood|
    ensures t.at[i] != InFirst ==> forall x :: 0 <= x < |t.mood| ==> Move(t, i).mood[x] == t.mood[x] || Move(t, i).mood[x] != Hungry
    ensures t.at[i] == Hungered && AllHungry(t) ==> Move(t, i).mood[i] == Eating
  {
  }

  lemma MoveKeepsOneTests(t: Table, i: nat)
    requires Inv(t) && OneTests(t) && i < |t.at| && !Blocked(t.at[i])
    ensures OneTests(Move(t, i))
  {
    AllHungryAfter(t, i);
    var u := Move(t, i);
    if AllHungry(u) {
      if t.at[i] == InFirst {
        assert u.at[i] == Hungered;
      } else {
        var h: nat :| h < |t.at| && t.at[h] == Hungered;
        assert u.at[h] == Hungered;
      }
    }
  }

  lemma {:induction false} ReachesOneTests(t: Table, acts: seq<Act>, u: Table)
    requires Inv(t) && OneTests(t) && Reaches(t, acts, u)
    ensures Inv(u) && OneTests(u)
    decreases |acts|
  {
    if acts != [] {
      match acts[0]
      case Go(i) =>
        MoveKeepsInv(t, i);
        MoveKeepsOneTests(t, i);
        ReachesOneTests(Move(t, i), acts[1..], u);
      case Join =>
        AddKeepsInv(t);
        AddKeepsOneTests(t);
        ReachesOneTests(Add(t), acts[1..], u);
    }
  }

  lemma AddKeepsOneTests(t: Table)
    requires Inv(t) && OneTests(t)
    ensures OneTests(Add(t))
  {
    assert Add(t) != t ==> Add(t).mood[|t.mood|] == Thinking;
  }

  /** However philosophers act and join, somebody can act. */
  lemma NoDeadlock(acts: seq<Act>, t: Table) returns (i: nat)
    requires Reaches(Empty(), acts, t) && |t.at| > 0
    ensures i < |t.at| && !Blocked(t.at[i])
  {
    ReachesOneTests(Empty(), acts, t);
    if t.mutex.value == 0 {
      i :| 0 <= i < |t.at| && Holding(t.at[i]);
    } else {
      NobodyHoldsWhenFree(t);
      forall x: nat | x < |t.at| ensures Blocked(t.at[x]) ==> t.mood[x] == Hungry {
        NobodyQueuedWhenFree(t, x);
        assert MoodFits(t.at[x], t.mood[x]);
      }
      assert !AllHungry(t);
      i :| 0 <= i < |t.at| && t.mood[i] != Hungry;
    }
  }

  // ----- who is stranded -----

  /** The first, hungry, has only the second left as a neighbour, who neither eats nor will test it, and is not inside itself. */
  predicate FirstStranded(t: Table)
    requires Shape(t) && |t.at| > 0
  {
    && t.mood[0] == Hungry && t.at[0] != Hungered
    && (|t.at| > 1 ==> t.mood[1] != Eating && t.at[1] != TestLeft)
  }

  /** Likewise the last; the one before it tests to its right last. */
  predicate LastStranded(t: Table)
    requires Shape(t) && |t.at| > 0
  {
    var l := |t.at| - 1;
    && t.mood[l] == Hungry && t.at[l] != Hungered
    && (l > 0 ==> t.mood[l - 1] != Eating && t.at[l - 1] != TestLeft && !t.at[l - 1].PostLeft? && t.at[l - 1] != TestRight)
  }

  lemma NeighboursBefore(t: Table, i: nat)
    requires Shape(t) && i < |t.at|
    ensures HasEatingNeighbour(t, i) <==>
            t.mood[if i == 0 then |t.at| - 1 else i - 1] == Eating || t.mood[if i == |t.at| - 1 then 0 else i + 1] == Eating
  {
  }

  /** With a newcomer, who is thinking, between the last and the first. */
  lemma NeighboursAfter(t: Table, i: nat)
    requires Shape(t) && Shape(Add(t)) && i < |t.at| < MAX_PHILOSOPHERS
    ensures HasEatingNeighbour(Add(t), i) <==> (i > 0 && t.mood[i - 1] == Eating) || (i < |t.at| - 1 && t.mood[i + 1] == Eating)
  {
    assert Add(t).mood[|t.at|] == Thinking;
  }

  lemma FirstTested(t: Table)
    requires Shape(t) && 0 < |t.at| < MAX_PHILOSOPHERS
    ensures ToBeTested(Add(t), 0) <==> t.at[0] == Hungered || (|t.at| > 1 && t.at[1] == TestLeft)
  {
    var n, u := |t.at|, Add(t);
    assert u.at[n] == Think;
    if t.at[0] == Hungered { assert WillTest(n + 1, u.at[0], 0, 0); }
    if n > 1 && t.at[1] == TestLeft { assert WillTest(n + 1, u.at[1], 1, 0); }
  }

  lemma LastTested(t: Table)
    requires Shape(t) && 0 < |t.at| < MAX_PHILOSOPHERS
    ensures var l := |t.at| - 1;
            ToBeTested(Add(t), l)
            <==> t.at[l] == Hungered || (l > 0 && (t.at[l - 1] == TestLeft || t.at[l - 1].PostLeft? || t.at[l - 1] == TestRight))
  {
    var l, u := |t.at| - 1, Add(t);
    assert u.at[l + 1] == Think;
    if t.at[l] == Hungered { assert WillTest(l + 2, u.at[l], l, l); }
    if l > 0 && (t.at[l - 1] == TestLeft || t.at[l - 1].PostLeft? || t.at[l - 1] == TestRight) { assert WillTest(l + 2, u.at[l - 1], l - 1, l); }
  }

  lemma MiddleTested(t: Table, x: nat)
    requires Shape(t) && |t.at| < MAX_PHILOSOPHERS && 0 < x < |t.at| - 1
    ensures ToBeTested(t, x) ==> ToBeTested(Add(t), x)
  {
    var n, u := |t.at|, Add(t);
    if j: nat :| j < n && WillTest(n, t.at[j], j, x) {
      assert WillTest(n + 1, u.at[j], j, x);
    }
  }

  ghost predicate ServedAt(t: Table, x: nat)
    requires Shape(t) && x < |t.at|
  {
    t.mood[x] == Hungry ==> HasEatingNeighbour(t, x) || ToBeTested(t, x)
  }

  lemma FirstServed(t: Table)
    requires Shape(t) && Shape(Add(t)) && 0 < |t.at| < MAX_PHILOSOPHERS
    ensures ServedAt(Add(t), 0) <==> !FirstStranded(t)
  {
    FirstTested(t);
    NeighboursAfter(t, 0);
  }

  lemma LastServed(t: Table)
    requires Shape(t) && Shape(Add(t)) && 0 < |t.at| < MAX_PHILOSOPHERS
    ensures ServedAt(Add(t), |t.at| - 1) <==> !LastStranded(t)
  {
    LastTested(t);
    NeighboursAfter(t, |t.at| - 1);
  }

  lemma MiddleServed(t: Table, x: nat)
    requires Shape(t) && Shape(Add(t)) && |t.at| < MAX_PHILOSOPHERS && 0 < x < |t.at| - 1 && ServedAt(t, x)
    ensures ServedAt(Add(t), x)
  {
    NeighboursBefore(t, x);
    NeighboursAfter(t, x);
    MiddleTested(t, x);
  }

  /**
   A philosopher who joins parts the first and the last, whoever holds the mutex. Exactly if one of these is then
   stranded, somebody hungry has no eating neighbour and is not about to be tested.
   */
  lemma JoinKeepsServedIff(t: Table)
    requires Inv(t) && Served(t) && 0 < |t.at| < MAX_PHILOSOPHERS
    ensures Shape(Add(t)) && (Served(Add(t)) <==> !FirstStranded(t) && !LastStranded(t))
  {
    AddMutex(t);
    FirstServed(t);
    LastServed(t);
    if ServedAt(Add(t), 0) && ServedAt(Add(t), |t.at| - 1) {
      forall x: nat | x <= |t.at| ensures ServedAt(Add(t), x) { OthersServed(t, x); }
      AllServed(Add(t));
    } else {
      OneNotServed(Add(t), 0);
      OneNotServed(Add(t), |t.at| - 1);
    }
  }

  lemma OthersServed(t: Table, x: nat)
    requires Shape(t) && Shape(Add(t)) && Served(t) && 0 < |t.at| < MAX_PHILOSOPHERS && x <= |t.at|
    ensures x != 0 && x != |t.at| - 1 ==> ServedAt(Add(t), x)
  {
    if 0 < x < |t.at| - 1 { MiddleServed(t, x); }
  }

  lemma AllServed(u: Table)
    requires Shape(u) && forall x: nat :: x < |u.at| ==> ServedAt(u, x)
    ensures Served(u)
  {
    forall x: nat | x < |u.at| && u.mood[x] == Hungry ensures HasEatingNeighbour(u, x) || ToBeTested(u, x) {
      assert ServedAt(u, x);
    }
  }

  lemma OneNotServed(u: Table, x: nat)
    requires Shape(u) && x < |u.at|
    ensures Served(u) ==> ServedAt(u, x)
  {
  }

  /** With the mutex free a pair, or one alone, never strands anybody. */
  lemma PairNotStranded(t: Table)
    requires Inv(t) && Served(t) && 0 < |t.at| <= 2 && t.mutex.value > 0
    ensures Shape(Add(t)) && Served(Add(t))
  {
    forall i: nat | i < |t.at| ensures t.mood[i] == Hungry ==> HasEatingNeighbour(t, i) {
      NoTestsWhenFree(t, i);
      NeighboursBefore(t, i);
    }
    JoinKeepsServedIff(t);
  }

  // ----- a run in which somebody is stranded -----

  /** Three seated; the middle one thinks throughout. */
  function Stage(p: Point, m: Mood, q: Point, l: Mood, free: int, token: int): Table {
    Table([m, Thinking, l], [p, Think, q], SemaphoreModel.Sem(free, 1, []), [SemaphoreModel.Sem(0, 1, []), SemaphoreModel.Sem(0, 1, []), SemaphoreModel.Sem(token, 1, [])])
  }

  lemma {:induction false} ReachesGo(t: Table, acts: seq<Act>, u: Table, i: nat)
    requires Reaches(t, acts, u) && Shape(u) && i < |u.at| && !Blocked(u.at[i])
    ensures Reaches(t, acts + [Go(i)], Move(u, i))
    decreases |acts|
  {
    if acts == [] {
      assert [Go(i)][1..] == [];
      assert Reaches(Move(u, i), [], Move(u, i));
    } else {
      assert (acts + [Go(i)])[1..] == acts[1..] + [Go(i)];
      ReachesGo(Do(t, acts[0]), acts[1..], u, i);
    }
  }

  lemma ThreeJoin()
    ensures Reaches(Empty(), [Join, Join, Join], Stage(Think, Thinking, Think, Thinking, 1, 0))
  {
    var a := Add(Empty());
    var b := Add(a);
    var c := Add(b);
    assert c == Stage(Think, Thinking, Think, Thinking, 1, 0);
    assert [Join, Join, Join][1..] == [Join, Join] && [Join, Join][1..] == [Join] && [Join][1..] == [];
    assert Reaches(c, [], c);
    assert Reaches(b, [Join], c);
    assert Reaches(a, [Join, Join], c);
  }

  /** The third takes its forks: it may eat and has its token. */
  lemma ThirdEats(t: Table, acts: seq<Act>) returns (more: seq<Act>)
    requires Reaches(t, acts, Stage(Think, Thinking, Think, Thinking, 1, 0))
    ensures Reaches(t, more, Stage(Think, Thinking, AskOwn, Eating, 1, 1))
  {
    var s0 := Stage(Think, Thinking, Think, Thinking, 1, 0);
    var s1 := Stage(Think, Thinking, AskFirst, Thinking, 1, 0);
    var s2 := Stage(Think, Thinking, InFirst, Thinking, 0, 0);
    var s3 := Stage(Think, Thinking, Hungered, Hungry, 0, 0);
    assert Move(s0, 2) == s1 && Move(s1, 2) == s2 && Move(s2, 2) == s3;
    ReachesGo(t, acts, s0, 2);
    ReachesGo(t, acts + [Go(2)], s1, 2);
    ReachesGo(t, acts + [Go(2)] + [Go(2)], s2, 2);
    more := acts + [Go(2)] + [Go(2)] + [Go(2)];
    more := ThirdLeaves(t, more);
  }

  lemma ThirdLeaves(t: Table, acts: seq<Act>) returns (more: seq<Act>)
    requires Reaches(t, acts, Stage(Think, Thinking, Hungered, Hungry, 0, 0))
    ensures Reaches(t, more, Stage(Think, Thinking, AskOwn, Eating, 1, 1))
  {
    var s3 := Stage(Think, Thinking, Hungered, Hungry, 0, 0);
    var s4 := Stage(Think, Thinking, PostOwn, Eating, 0, 0);
    var s5 := Stage(Think, Thinking, Leaving, Eating, 0, 1);
    var s6 := Stage(Think, Thinking, AskOwn, Eating, 1, 1);
    assert Move(s3, 2) == s4 && Move(s4, 2) == s5 && Move(s5, 2) == s6;
    ReachesGo(t, acts, s3, 2);
    ReachesGo(t, acts + [Go(2)], s4, 2);
    ReachesGo(t, acts + [Go(2)] + [Go(2)], s5, 2);
    more := acts + [Go(2)] + [Go(2)] + [Go(2)];
  }

  /** The first asks for its forks in vain. */
  lemma FirstAsks(t: Table, acts: seq<Act>) returns (more: seq<Act>)
    requires Reaches(t, acts, Stage(Think, Thinking, AskOwn, Eating, 1, 1))
    ensures Reaches(t, more, Stage(AskOwn, Hungry, AskOwn, Eating, 1, 1))
  {
    var s0 := Stage(Think, Thinking, AskOwn, Eating, 1, 1);
    var s1 := Stage(AskFirst, Thinking, AskOwn, Eating, 1, 1);
    var s2 := Stage(InFirst, Thinking, AskOwn, Eating, 0, 1);
    var s3 := Stage(Hungered, Hungry, AskOwn, Eating, 0, 1);
    assert Move(s0, 0) == s1 && Move(s1, 0) == s2 && Move(s2, 0) == s3;
    ReachesGo(t, acts, s0, 0);
    ReachesGo(t, acts + [Go(0)], s1, 0);
    ReachesGo(t, acts + [Go(0)] + [Go(0)], s2, 0);
    more := FirstLeaves(t, acts + [Go(0)] + [Go(0)] + [Go(0)]);
  }

  lemma FirstLeaves(t: Table, acts: seq<Act>) returns (more: seq<Act>)
    requires Reaches(t, acts, Stage(Hungered, Hungry, AskOwn, Eating, 0, 1))
    ensures Reaches(t, more, Stage(AskOwn, Hungry, AskOwn, Eating, 1, 1))
  {
    var s3 := Stage(Hungered, Hungry, AskOwn, Eating, 0, 1);
    var s4 := Stage(Leaving, Hungry, AskOwn, Eating, 0, 1);
    var s5 := Stage(AskOwn, Hungry, AskOwn, Eating, 1, 1);
    assert Move(s3, 0) == s4 && Move(s4, 0) == s5;
    ReachesGo(t, acts, s3, 0);
    ReachesGo(t, acts + [Go(0)], s4, 0);
    more := acts + [Go(0)] + [Go(0)];
  }

  /** Three join, the third eats, the first waits for it, a fourth joins: the first is hungry beside nobody who eats. */
  lemma JoinStrands() returns (acts: seq<Act>, t: Table)
    ensures Reaches(Empty(), acts, t) && Inv(t) && Served(t) && t.mutex.value > 0
    ensures Shape(Add(t)) && !Served(Add(t))
  {
    ThreeJoin();
    acts := ThirdEats(Empty(), [Join, Join, Join]);
    acts := FirstAsks(Empty(), acts);
    t := Stage(AskOwn, Hungry, AskOwn, Eating, 1, 1);
    ReachesInv(Empty(), acts, t);
    assert HasEatingNeighbour(t, 0);
    JoinKeepsServedIff(t);
  }
}
