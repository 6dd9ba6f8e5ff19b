// The number of children an entry carries, over whole runs of engine actions.
module ChildCounts {
  import opened Text
  import opened Glob
  import opened Paths
  import opened Entries
  import opened Store

  ghost predicate Trace(states: seq<Store>, acts: seq<Action>) {
    && |states| == |acts| + 1
    && forall i | 0 <= i < |acts| :: Step(states[i], acts[i], states[i + 1])
  }

  // Every run passes through some trace.
  lemma {:induction false} TraceOfRun(s: Store, acts: seq<Action>, s': Store) returns (states: seq<Store>)
    requires Run(s, acts, s')
    ensures Trace(states, acts) && states[0] == s && states[|acts|] == s'
  {
    hide Step;
    if acts == [] {
      states := [s];
    } else {
      var n := |acts| - 1;
      var m :| Run(s, acts[..n], m) && Step(m, acts[n], s');
      var before := TraceOfRun(s, acts[..n], m);
      states := before + [s'];
      forall i | 0 <= i < |acts|
        ensures Step(states[i], acts[i], states[i + 1])
      {
        if i < n {
          assert Step(before[i], acts[..n][i], before[i + 1]);
        }
      }
    }
  }

  // The action inserts a child of d: an unknown path whose parent is d.
  predicate InsertsChild(s: Store, a: Action, d: string) {
    a.New? && a.p != "" && a.p !in s.entries && Parent(a.p) == d
  }

  function ChildInsertions(states: seq<Store>, acts: seq<Action>, d: string, i: nat, j: nat): nat
    requires i <= j <= |acts| == |states| - 1
  {
    if i == j then 0
    else ChildInsertions(states, acts, d, i, j - 1) + (if InsertsChild(states[j - 1], acts[j - 1], d) then 1 else 0)
  }

  // Neither removes d nor fixes its count.
  predicate LeavesCount(a: Action, d: string) {
    match a
    case Drop(p) => p != d
    case Edit(p, c) => p == d ==> !c.PinChildren?
    case EditAll(c) => !c.PinChildren?
    case _ => true
  }

  function ChildrenOf(s: Store, d: string): (int, bool)
    requires d in s.entries
  {
    (s.entries[d].childrenCount, s.entries[d].autoCount)
  }

  lemma StepCounts(s: Store, a: Action, s': Store, d: string)
    requires d != "" && d in s.entries && Step(s, a, s') && LeavesCount(a, d)
    ensures d in s'.entries
    ensures var (count, auto) := ChildrenOf(s, d);
      ChildrenOf(s', d) == (if auto && InsertsChild(s, a, d) then count + 1 else count, auto)
  {
    if a.New? {
      hide Placed, Parent, Match, Apply;
      if a.p != "" && a.p !in s.entries {
        CreationFrame(s, a.p, s');
      }
    } else if a.Edit? {
      ApplyKeepsCount(a.c, s.entries[d]);
      hide Apply, Created;
    } else {
      if a.EditAll? {
        ApplyKeepsCount(a.c, s.entries[d]);
      }
      hide Apply, Created;
    }
  }

  lemma ApplyKeepsCount(c: Change, e: Entry)
    ensures !c.PinChildren? ==> Apply(c, e).childrenCount == e.childrenCount && Apply(c, e).autoCount == e.autoCount
  {
  }

  // While d is neither removed nor set, an automatic count grows by one with each insertion of a
  // child and by nothing else; a fixed count does not move.
  lemma {:induction false} CountFollowsInsertions(states: seq<Store>, acts: seq<Action>, d: string, i: nat, j: nat)
    requires Trace(states, acts) && i <= j <= |acts|
    requires d != "" && d in states[i].entries
    requires forall k | i <= k < j :: LeavesCount(acts[k], d)
    ensures d in states[j].entries
    ensures var (count, auto) := ChildrenOf(states[i], d);
      ChildrenOf(states[j], d) == (if auto then count + ChildInsertions(states, acts, d, i, j) else count, auto)
    decreases j
  {
    hide Step;
    if i < j {
      CountFollowsInsertions(states, acts, d, i, j - 1);
      StepCounts(states[j - 1], acts[j - 1], states[j], d);
    }
  }

  // An entry inserted where no key matches counts exactly the children inserted since, its own
  // insertion included when it is its own parent.
  lemma {:induction false} CountSinceInsertion(states: seq<Store>, acts: seq<Action>, d: string, i: nat, j: nat)
    requires Trace(states, acts) && i < j <= |acts|
    requires acts[i] == New(d) && d != "" && d !in states[i].entries
    requires forall k | k in states[i].entries :: !Match(k, d)
    requires forall k | i < k < j :: LeavesCount(acts[k], d)
    ensures d in states[j].entries
    ensures ChildrenOf(states[j], d) == (ChildInsertions(states, acts, d, i, j), true)
  {
    hide Match, Parent, Step, ChildInsertions, InsertsChild, LeavesCount;
    DefaultInsertion(states[i], d, states[i + 1]);
    CountFollowsInsertions(states, acts, d, i + 1, j);
    InsertionsSplit(states, acts, d, i, i + 1, j);
    OwnInsertion(states, acts, d, i);
  }

  lemma OwnInsertion(states: seq<Store>, acts: seq<Action>, d: string, i: nat)
    requires i < |acts| == |states| - 1
    requires acts[i] == New(d) && d != "" && d !in states[i].entries
    ensures ChildInsertions(states, acts, d, i, i + 1) == if Parent(d) == d then 1 else 0
  {
    hide Parent;
    assert ChildInsertions(states, acts, d, i, i) == 0;
  }

  lemma DefaultInsertion(s: Store, d: string, s': Store)
    requires d != "" && d !in s.entries && forall k | k in s.entries :: !Match(k, d)
    requires Step(s, New(d), s')
    ensures d in s'.entries && ChildrenOf(s', d) == (if Parent(d) == d then 1 else 0, true)
  {
    CreatedByDefault(s, d, s');
    PlacedFrame(s, d, Inherited(s, None));
  }

  lemma {:induction false} InsertionsSplit(states: seq<Store>, acts: seq<Action>, d: string, i: nat, m: nat, j: nat)
    requires i <= m <= j <= |acts| == |states| - 1
    ensures ChildInsertions(states, acts, d, i, j)
         == ChildInsertions(states, acts, d, i, m) + ChildInsertions(states, acts, d, m, j)
    decreases j
  {
    if m < j {
      InsertionsSplit(states, acts, d, i, m, j - 1);
    }
  }

  // A count set by setDirectoryFileCount stays until it is set again or the entry is removed.
  lemma PinnedCountStays(states: seq<Store>, acts: seq<Action>, d: string, n: int, i: nat, j: nat)
    requires Trace(states, acts) && i < j <= |acts|
    requires acts[i] == Edit(d, PinChildren(n)) && d != "" && d in states[i].entries
    requires forall k | i < k < j :: LeavesCount(acts[k], d)
    ensures d in states[j].entries && ChildrenOf(states[j], d) == (n, false)
  {
    assert Step(states[i], acts[i], states[i + 1]);
    CountFollowsInsertions(states, acts, d, i + 1, j);
  }
}
