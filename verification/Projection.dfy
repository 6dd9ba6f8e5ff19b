// When no created path matches another, what a run leaves at a path depends only on the actions on
// that path: the run of the whole store projects to the run of one cell.
module Projection {
  import opened Text
  import opened Glob
  import opened Paths
  import opened Entries
  import opened Store

  datatype Cell = Cell(entry: Option<Entry>, raised: bool)

  const EMPTY_CELL := Cell(None, false)

  function CellStep(c: Cell, a: Action, p: string): Cell {
    match a
    case New(q) => if q == p && c.entry.None? then c.(entry := Some(DEFAULT_ENTRY.(inMemory := c.raised))) else c
    case Edit(q, change) => if q == p then Changed(c, change) else c
    case EditAll(change) => Changed(c, change)
    case Raise => c.(raised := true)
    case Drop(q) => if q == p then c.(entry := None) else c
  }

  function Changed(c: Cell, change: Change): Cell {
    if c.entry.Some? then c.(entry := Some(Apply(change, c.entry.value))) else c
  }

  function CellRun(c: Cell, acts: seq<Action>, p: string): Cell {
    if acts == [] then c else CellStep(CellRun(c, acts[..|acts| - 1], p), acts[|acts| - 1], p)
  }

  lemma {:induction false} CellRunConcat(c: Cell, acts: seq<Action>, more: seq<Action>, p: string)
    ensures CellRun(c, acts + more, p) == CellRun(CellRun(c, acts, p), more, p)
  {
    hide CellStep;
    if more == [] {
      assert acts + more == acts;
    } else {
      var all := acts + more;
      assert all[..|all| - 1] == acts + more[..|more| - 1];
      CellRunConcat(c, acts, more[..|more| - 1], p);
    }
  }

  ghost predicate Isolated(acts: seq<Action>) {
    forall p, q | New(p) in acts && New(q) in acts && p != "" && q != "" && p != q :: !Match(p, q)
  }

  // No created path has p as its parent.
  ghost predicate Childless(acts: seq<Action>, p: string) {
    forall q | New(q) in acts && q != "" :: Parent(q) != p
  }

  // The entry of the store against that of the cell: children inserted since can only have raised
  // an automatic count and turned a file into a directory.
  ghost predicate Agrees(e: Entry, cell: Entry, childless: bool) {
    && e.(childrenCount := cell.childrenCount, isFile := cell.isFile) == cell
    && (e.isFile ==> cell.isFile)
    && (!cell.autoCount ==> e.childrenCount == cell.childrenCount)
    && (childless ==> e == cell)
  }

  ghost predicate Projects(s: Store, p: string, c: Cell, childless: bool) {
    && c.raised == s.allInMemory
    && (c.entry.Some? <==> p in s.entries)
    && (c.entry.Some? ==> Agrees(s.entries[p], c.entry.value, childless))
  }

  lemma AgreesApplied(change: Change, e: Entry, cell: Entry, childless: bool)
    requires Agrees(e, cell, childless)
    ensures Agrees(Apply(change, e), Apply(change, cell), childless)
  {
    hide Appended;
    match change
    case AddProducer(app) => assert Apply(change, e) == e.(producers := Appended(e.producers, app));
    case AddConsumer(app) => assert Apply(change, e) == e.(consumers := Appended(e.consumers, app));
    case SetDependencies(paths) => assert Apply(change, e) == e.(fileDependencies := paths);
    case SetKind(isFile) => assert Apply(change, e) == e.(isFile := isFile);
    case PinChildren(count) => assert Apply(change, e) == e.(childrenCount := count, autoCount := false);
    case _ =>
  }

  lemma AgreesWithChild(e: Entry, cell: Entry, child: bool)
    requires Agrees(e, cell, false)
    ensures Agrees(WithChild(e, child), cell, false)
    ensures !child ==> WithChild(e, child) == e
  {
  }

  lemma StepProjects(s: Store, a: Action, s': Store, p: string, c: Cell, childless: bool)
    requires p != "" && Projects(s, p, c, childless) && Step(s, a, s')
    requires a.New? && a.p != "" && a.p !in s.entries ==> forall k | k in s.entries :: !Match(k, a.p)
    requires childless && a.New? && a.p != "" ==> Parent(a.p) != p
    ensures Projects(s', p, CellStep(c, a, p), childless)
  {
    hide Match, Parent, Placed;
    match a
    case New(q) =>
      if q != "" && q !in s.entries {
        NewProjects(s, q, s', p, c, childless);
      }
    case Edit(q, change) =>
      if q == p && p in s.entries {
        AgreesApplied(change, s.entries[p], c.entry.value, childless);
      }
      hide Agrees, Apply;
    case EditAll(change) =>
      if p in s.entries {
        AgreesApplied(change, s.entries[p], c.entry.value, childless);
      }
      hide Agrees, Apply;
    case Raise =>
    case Drop(q) =>
  }

  lemma NewProjects(s: Store, q: string, s': Store, p: string, c: Cell, childless: bool)
    requires p != "" && Projects(s, p, c, childless) && Created(s, q, s')
    requires q != "" && q !in s.entries && forall k | k in s.entries :: !Match(k, q)
    requires childless ==> Parent(q) != p
    ensures Projects(s', p, CellStep(c, New(q), p), childless)
  {
    CreatedByDefault(s, q, s');
    var e := Inherited(s, None);
    PlacedFrame(s, q, e);
    hide Match, Placed, Created, Parent;
    var child := p == Parent(q);
    if q == p {
      AgreesWithChild(e, e, child);
    } else if p in s.entries {
      AgreesWithChild(s.entries[p], c.entry.value, child);
    }
  }

  // Only created paths are keys, and without removals every one of them is.
  lemma {:induction false} RunKeys(acts: seq<Action>, s: Store)
    requires Run(EMPTY_STORE, acts, s)
    ensures forall p | p in s.entries :: p != "" && New(p) in acts
    ensures forall p | p != "" && New(p) in acts && Drop(p) !in acts :: p in s.entries
  {
    if acts != [] {
      var init, last := acts[..|acts| - 1], acts[|acts| - 1];
      var m :| Run(EMPTY_STORE, init, m) && Step(m, last, s);
      assert acts == init + [last];
      RunKeys(init, m);
      StepKeys(m, last, s);
      hide Step;
    }
  }

  lemma StepKeys(s: Store, a: Action, s': Store)
    requires Step(s, a, s')
    ensures s'.entries.Keys ==
      if a.New? && a.p != "" then s.entries.Keys + {a.p} else if a.Drop? then s.entries.Keys - {a.p} else s.entries.Keys
  {
    hide Match, Parent, Placed;
    if a.New? && a.p != "" && a.p !in s.entries {
      CreationFrame(s, a.p, s');
    }
  }

  // The projection: the store at p is the cell of p.
  lemma {:induction false} RunProjects(acts: seq<Action>, s: Store, p: string)
    requires Run(EMPTY_STORE, acts, s) && Isolated(acts) && p != ""
    ensures Projects(s, p, CellRun(EMPTY_CELL, acts, p), Childless(acts, p))
  {
    hide Step, CellStep, Projects;
    if acts == [] {
      EmptyProjects(p, Childless(acts, p));
    } else {
      var init, last := acts[..|acts| - 1], acts[|acts| - 1];
      var m :| Run(EMPTY_STORE, init, m) && Step(m, last, s);
      hide Run;
      assert acts == init + [last];
      RunKeys(init, m);
      IsolatedPrefix(init, last, m, p);
      hide Isolated, Childless;
      RunProjects(init, m, p);
      var c := CellRun(EMPTY_CELL, init, p);
      if !Childless(acts, p) {
        WeakerProjection(m, p, c, Childless(init, p));
      }
      StepProjects(m, last, s, p, c, Childless(acts, p));
    }
  }

  lemma EmptyProjects(p: string, childless: bool)
    ensures Projects(EMPTY_STORE, p, EMPTY_CELL, childless)
  {
  }

  lemma IsolatedPrefix(init: seq<Action>, last: Action, m: Store, p: string)
    requires Isolated(init + [last])
    requires forall k | k in m.entries :: k != "" && New(k) in init
    ensures Isolated(init)
    ensures last.New? && last.p != "" && last.p !in m.entries ==> forall k | k in m.entries :: !Match(k, last.p)
    ensures Childless(init + [last], p) ==>
      Childless(init, p) && (last.New? && last.p != "" ==> Parent(last.p) != p)
  {
    hide Match, Parent;
    assert forall a | a in init :: a in init + [last];
    assert last in init + [last];
  }

  lemma WeakerProjection(s: Store, p: string, c: Cell, childless: bool)
    requires Projects(s, p, c, childless)
    ensures Projects(s, p, c, false)
  {
  }
}
