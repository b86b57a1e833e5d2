/** The state array and count of phylo.c, updated in place; the system calls between the updates are steps of Philosophers. */
module Dining {
  import opened Philosophers

  class Dinner {
    const state: array<Mood>
    var philosopherCount: nat

    ghost predicate Valid()
      reads this
    {
      state.Length == MAX_PHILOSOPHERS && philosopherCount <= MAX_PHILOSOPHERS
    }

    /** The moods of those seated. */
    ghost function Moods(): (m: seq<Mood>)
      reads this, state
      requires Valid()
    {
      state[..philosopherCount]
    }

    ghost predicate Shows(t: Table)
      reads this, state
    {
      Valid() && Shape(t) && t.mood == Moods()
    }

    constructor ()
      ensures Valid() && Shows(Empty()) && fresh(state)
    {
      state := new Mood[MAX_PHILOSOPHERS](_ => Thinking);
      philosopherCount := 0;
    }

    method LeftOf(i: nat) returns (r: nat)
      requires Valid() && i < philosopherCount
      ensures r == Left(philosopherCount, i)
    {
      r := (i + philosopherCount - 1) % philosopherCount;
    }

    method RightOf(i: nat) returns (r: nat)
      requires Valid() && i < philosopherCount
      ensures r == Right(philosopherCount, i)
    {
      r := (i + 1) % philosopherCount;
    }

    /** The test of philosopher k made by i: `granted` is whether the private semaphore of k is posted next. */
    method Test(ghost t: Table, ghost i: nat, k: nat) returns (granted: bool)
      requires Shows(t) && i < philosopherCount && k < philosopherCount
      requires (t.at[i] == Hungered && k == i) || (t.at[i] == TestLeft && k == Left(|t.at|, i)) || (t.at[i] == TestRight && k == Right(|t.at|, i))
      modifies state
      ensures Valid() && Moods() == Move(t, i).mood
      ensures granted <==> old(state[k]) == Hungry && old(state[Left(philosopherCount, k)]) != Eating && old(state[Right(philosopherCount, k)]) != Eating
      ensures granted <==> Turns(i, k, t.at[i], Move(t, i).at[i])
    {
      TestMoods(t, Move(t, i), i, k);
      granted := false;
      if state[k] == Hungry {
        var l := LeftOf(k);
        if state[l] != Eating {
          var r := RightOf(k);
          if state[r] != Eating {
            state[k] := Eating;
            granted := true;
          }
        }
      }
    }

    /** The other writes to a philosopher's own state. */
    method Become(ghost t: Table, i: nat, m: Mood)
      requires Shows(t) && i < philosopherCount
      requires (t.at[i] == Think && m == Thinking) || (t.at[i] == InFirst && m == Hungry) || (t.at[i] == Eat && m == Eating) || (t.at[i] == InSecond && m == Thinking)
      modifies state
      ensures Valid() && Moods() == Move(t, i).mood
    {
      state[i] := m;
    }

    method AddPhilosopher(ghost t: Table)
      requires Shows(t)
      modifies this`philosopherCount, state
      ensures Shows(Add(t))
    {
      if philosopherCount >= MAX_PHILOSOPHERS { return; }
      state[philosopherCount] := Thinking;
      philosopherCount := philosopherCount + 1;
    }
  }
}
