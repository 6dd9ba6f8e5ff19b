// The engine's state as a value, and what one lock section may do to it. Where the code scans its
// hash map the outcome can depend on the iteration order, so creation is a relation.
module Store {
  import opened Text
  import opened Glob
  import opened Paths
  import opened Entries

  type EntryMap = map<string, Entry>

  datatype Store = Store(entries: EntryMap, allInMemory: bool)

  const EMPTY_STORE := Store(map[], false)

  // ---- Creation of an entry: _newFile and compute_directory_entry_count ----

  predicate Matching(es: EntryMap, p: string, k: string) {
    k in es && k != "" && Match(k, p)
  }

  // k is one of the longest keys that match p.
  ghost predicate Best(es: EntryMap, p: string, k: string) {
    Matching(es, p, k) && forall j | Matching(es, p, j) :: |j| <= |k|
  }

  // The key a new entry for p may be copied from; None when no key matches.
  ghost predicate Source(es: EntryMap, p: string, source: Option<string>) {
    match source
    case Some(k) => Best(es, p, k)
    case None => forall k :: !Matching(es, p, k)
  }

  function Inherited(s: Store, source: Option<string>): Entry
    requires source.Some? ==> source.value in s.entries
  {
    match source
    case Some(k) => s.entries[k].(inMemory := s.allInMemory || s.entries[k].inMemory)
    case None => DEFAULT_ENTRY.(inMemory := s.allInMemory)
  }

  function CountChild(es: EntryMap, p: string): EntryMap {
    var d := Parent(p);
    if d != "" && d in es && es[d].autoCount then
      es[d := es[d].(childrenCount := es[d].childrenCount + 1, isFile := false)]
    else
      es
  }

  function Insert(s: Store, p: string, source: Option<string>): Store
    requires source.Some? ==> source.value in s.entries
  {
    Placed(s, p, Inherited(s, source))
  }

  function Placed(s: Store, p: string, e: Entry): Store {
    s.(entries := CountChild(s.entries[p := e], p))
  }

  ghost predicate Created(s: Store, p: string, s': Store) {
    if p == "" || p in s.entries then s' == s
    else exists source :: Source(s.entries, p, source) && s' == Insert(s, p, source)
  }

  // ---- Changes to one entry ----

  datatype Change =
    | AddProducer(app: string)
    | AddConsumer(app: string)
    | SetCommitRule(rule: string)
    | SetFireRule(rule: string)
    | SetPermanent(value: bool)
    | SetExcluded(value: bool)
    | SetKind(isFile: bool)
    | SetCloseCount(count: int)
    | PinChildren(count: int)
    | SetDependencies(paths: seq<string>)
    | SetInMemory(value: bool)

  function Appended(xs: seq<string>, x: string): seq<string> {
    if x in xs then xs else xs + [x]
  }

  function Apply(c: Change, e: Entry): Entry {
    match c
    case AddProducer(app) => e.(producers := Appended(e.producers, app))
    case AddConsumer(app) => e.(consumers := Appended(e.consumers, app))
    case SetCommitRule(rule) => e.(commitRule := rule)
    case SetFireRule(rule) => e.(fireRule := rule)
    case SetPermanent(value) => e.(permanent := value)
    case SetExcluded(value) => e.(excluded := value)
    case SetKind(isFile) => e.(isFile := isFile)
    case SetCloseCount(count) => e.(closeCount := count)
    case PinChildren(count) => e.(childrenCount := count, autoCount := false)
    case SetDependencies(paths) => e.(fileDependencies := paths)
    case SetInMemory(value) => e.(inMemory := value)
  }

  function Edited(s: Store, p: string, c: Change): Store {
    if p in s.entries then s.(entries := s.entries[p := Apply(c, s.entries[p])]) else s
  }

  // The empty path is skipped, as every setter returns at once on it.
  function EditedAll(s: Store, c: Change): Store {
    s.(entries := map p | p in s.entries :: if p == "" then s.entries[p] else Apply(c, s.entries[p]))
  }

  function Dropped(s: Store, p: string): Store {
    s.(entries := s.entries - {p})
  }

  // ---- Actions and runs ----

  // New, Edit, Drop and Raise are single lock sections. EditAll is the outcome of editing every
  // path of a snapshot when no other thread interferes.
  datatype Action =
    | New(p: string)
    | Edit(p: string, c: Change)
    | EditAll(c: Change)
    | Raise
    | Drop(p: string)

  ghost predicate Step(s: Store, a: Action, s': Store) {
    match a
    case New(p) => Created(s, p, s')
    case Edit(p, c) => s' == Edited(s, p, c)
    case EditAll(c) => s' == EditedAll(s, c)
    case Raise => s' == s.(allInMemory := true)
    case Drop(p) => s' == Dropped(s, p)
  }

  ghost predicate Run(s: Store, acts: seq<Action>, s': Store) {
    if acts == [] then s == s'
    else
      var init, last := acts[..|acts| - 1], acts[|acts| - 1];
      exists m :: Run(s, init, m) && Step(m, last, s')
  }

  lemma RunSnoc(s: Store, acts: seq<Action>, m: Store, a: Action, s': Store)
    requires Run(s, acts, m) && Step(m, a, s')
    ensures Run(s, acts + [a], s')
  {
    hide Step;
    assert (acts + [a])[..|acts|] == acts;
  }

  lemma {:induction false} RunConcat(s: Store, acts: seq<Action>, m: Store, more: seq<Action>, s': Store)
    requires Run(s, acts, m) && Run(m, more, s')
    ensures Run(s, acts + more, s')
  {
    hide Step;
    if more == [] {
      assert acts + more == acts;
    } else {
      var n := |more| - 1;
      var t :| Run(m, more[..n], t) && Step(t, more[n], s');
      RunConcat(s, acts, m, more[..n], t);
      RunSnoc(s, acts + more[..n], t, more[n], s');
      assert acts + more == acts + more[..n] + [more[n]];
    }
  }

  // What a setter does: find the entry, creating it first when it is missing, then change it.
  ghost predicate Updated(s: Store, p: string, c: Change, s': Store) {
    if p == "" then s' == s
    else exists m :: Created(s, p, m) && s' == Edited(m, p, c)
  }

  lemma UpdateKnown(s: Store, p: string, c: Change)
    requires p in s.entries
    ensures p != "" ==> Updated(s, p, c, Edited(s, p, c))
  {
    assert Created(s, p, s);
  }

  lemma UpdatedKnown(s: Store, p: string, c: Change, s': Store)
    requires p in s.entries && Updated(s, p, c, s')
    ensures s' == if p == "" then s else Edited(s, p, c)
  {
    hide Edited;
  }

  function Setting(p: string, c: Change): seq<Action> {
    if p == "" then [] else [New(p), Edit(p, c)]
  }

  lemma RunOneStep(s: Store, a: Action, s': Store)
    requires Run(s, [a], s')
    ensures Step(s, a, s')
  {
    hide Step;
    assert [a][..0] == [];
    var m :| Run(s, [a][..0], m) && Step(m, a, s');
  }

  lemma {:induction false} RunSplit(s: Store, acts: seq<Action>, more: seq<Action>, s': Store) returns (m: Store)
    requires Run(s, acts + more, s')
    ensures Run(s, acts, m) && Run(m, more, s')
  {
    hide Step;
    var all := acts + more;
    if more == [] {
      assert all == acts;
      m := s';
    } else {
      var n := |more| - 1;
      assert all[..|all| - 1] == acts + more[..n] && all[|all| - 1] == more[n];
      var t :| Run(s, all[..|all| - 1], t) && Step(t, all[|all| - 1], s');
      m := RunSplit(s, acts, more[..n], t);
    }
  }

  lemma RunOne(s: Store, a: Action, s': Store)
    requires Step(s, a, s')
    ensures Run(s, [a], s')
  {
    RunSnoc(s, [], s, a, s');
    assert [] + [a] == [a];
  }

  lemma RunTwo(s: Store, a: Action, m: Store, b: Action, s': Store)
    requires Step(s, a, m) && Step(m, b, s')
    ensures Run(s, [a, b], s')
  {
    hide Step, Run;
    RunOne(s, a, m);
    RunSnoc(s, [a], m, b, s');
    assert [a] + [b] == [a, b];
  }

  lemma UpdatedRuns(s: Store, p: string, c: Change, s': Store)
    requires Updated(s, p, c, s')
    ensures Run(s, Setting(p, c), s')
  {
    if p != "" {
      var m :| Created(s, p, m) && s' == Edited(m, p, c);
      RunTwo(s, New(p), m, Edit(p, c), s');
    }
  }

  function Creations(paths: seq<string>): seq<Action> {
    if paths == [] then [] else Creations(paths[..|paths| - 1]) + [New(paths[|paths| - 1])]
  }

  // What setFileDeps does.
  function SettingDependencies(p: string, paths: seq<string>): seq<Action> {
    if p == "" || paths == [] then [] else Creations(paths) + Setting(p, SetDependencies(paths))
  }

  // Creating paths that all exist changes nothing.
  lemma {:induction false} CreationsOfKnown(s: Store, paths: seq<string>, s': Store)
    requires forall p | p in paths :: p == "" || p in s.entries
    requires Run(s, Creations(paths), s')
    ensures s' == s
  {
    if paths != [] {
      var n := |paths| - 1;
      var acts := Creations(paths);
      assert acts[..|acts| - 1] == Creations(paths[..n]);
      var m :| Run(s, acts[..|acts| - 1], m) && Step(m, New(paths[n]), s');
      CreationsOfKnown(s, paths[..n], m);
    }
  }

  lemma {:induction false} CreationsCreate(s: Store, paths: seq<string>, s': Store)
    requires Run(s, Creations(paths), s')
    ensures s.entries.Keys <= s'.entries.Keys
    ensures forall p | p in paths :: p == "" || p in s'.entries
  {
    if paths != [] {
      var n := |paths| - 1;
      var acts := Creations(paths);
      assert acts[..|acts| - 1] == Creations(paths[..n]);
      var m :| Run(s, acts[..|acts| - 1], m) && Step(m, New(paths[n]), s');
      CreationsCreate(s, paths[..n], m);
      if paths[n] != "" && paths[n] !in m.entries {
        CreationFrame(m, paths[n], s');
      }
    }
  }

  lemma KnownDependencies(s: Store, p: string, paths: seq<string>, m: Store)
    requires p != "" && paths != []
    requires Run(s, Creations(paths), m) && p in m.entries
    ensures Run(s, SettingDependencies(p, paths), Edited(m, p, SetDependencies(paths)))
  {
    hide Run, Creations;
    var c := SetDependencies(paths);
    UpdateKnown(m, p, c);
    UpdatedRuns(m, p, c, Edited(m, p, c));
    RunConcat(s, Creations(paths), m, Setting(p, c), Edited(m, p, c));
  }

  lemma DependenciesEdited(s: Store, path: string, dependencies: seq<string>)
    requires path in s.entries
    ensures Edited(s, path, SetDependencies(dependencies))
         == s.(entries := s.entries[path := s.entries[path].(fileDependencies := dependencies)])
  {
  }

  // setFileDeps on an unknown path creates the dependencies a second time, to no effect.
  lemma {:induction false} RetriedDependencies(s: Store, p: string, paths: seq<string>, m: Store, created: Store, s': Store)
    requires p != "" && paths != []
    requires Run(s, Creations(paths), m)
    requires p !in m.entries && Created(m, p, created)
    requires Run(created, SettingDependencies(p, paths), s')
    ensures Run(s, SettingDependencies(p, paths), s')
  {
    var c := SetDependencies(paths);
    CreationsCreate(s, paths, m);
    CreationFrame(m, p, created);
    hide Run, Edited, Creations, Created;
    var t := RunSplit(created, Creations(paths), [New(p), Edit(p, c)], s');
    CreationsOfKnown(created, paths, t);
    assert [New(p), Edit(p, c)] == [New(p)] + [Edit(p, c)];
    var u := RunSplit(created, [New(p)], [Edit(p, c)], s');
    RunOneStep(created, New(p), u);
    RunOneStep(u, Edit(p, c), s');
    CreatedTwice(m, p, created, u);
    RunTwo(m, New(p), created, Edit(p, c), s');
    RunConcat(s, Creations(paths), m, Setting(p, c), s');
  }

  lemma CreatedTwice(m: Store, p: string, created: Store, s': Store)
    requires p in created.entries && Created(created, p, s')
    ensures s' == created
  {
  }

  // ---- What creation promises ----

  // Only p is new, and among the others only p's parent may change, in its child count and kind.
  lemma PlacedFrame(s: Store, p: string, e: Entry)
    requires p !in s.entries
    ensures var s' := Placed(s, p, e);
      && s'.allInMemory == s.allInMemory
      && s'.entries.Keys == s.entries.Keys + {p}
      && s'.entries[p] == WithChild(e, p == Parent(p) != "")
      && forall q | q in s.entries :: s'.entries[q] == WithChild(s.entries[q], q == Parent(p) != "")
  {
    hide Parent, Match;
  }

  function WithChild(e: Entry, child: bool): Entry {
    if child && e.autoCount then e.(childrenCount := e.childrenCount + 1, isFile := false) else e
  }

  // The new entry holds what one of the longest matches held, memory flag aside.
  lemma CreationFrame(s: Store, p: string, s': Store)
    requires Created(s, p, s') && p != "" && p !in s.entries
    ensures s'.allInMemory == s.allInMemory
    ensures s'.entries.Keys == s.entries.Keys + {p}
    ensures forall q | q in s.entries :: s'.entries[q] == WithChild(s.entries[q], q == Parent(p) != "")
    ensures exists source :: Source(s.entries, p, source) && s'.entries[p] == NewEntry(s, p, source)
  {
    var source :| Source(s.entries, p, source) && s' == Insert(s, p, source);
    PlacedFrame(s, p, Inherited(s, source));
  }

  // The entry a path is created with. The root, its own parent, counts its own insertion.
  function NewEntry(s: Store, p: string, source: Option<string>): Entry
    requires source.Some? ==> source.value in s.entries
  {
    WithChild(Inherited(s, source), p == Parent(p))
  }

  // Field by field, e is a copy of the matched entry m; the root, when it counts, counts itself.
  ghost predicate CopyOf(e: Entry, m: Entry, allInMemory: bool, countsItself: bool) {
    && e.producers == m.producers && e.consumers == m.consumers && e.fileDependencies == m.fileDependencies
    && e.commitRule == m.commitRule && e.fireRule == m.fireRule && e.closeCount == m.closeCount
    && e.permanent == m.permanent && e.excluded == m.excluded && e.autoCount == m.autoCount
    && e.inMemory == (allInMemory || m.inMemory)
    && e.childrenCount == (if countsItself && m.autoCount then m.childrenCount + 1 else m.childrenCount)
    && e.isFile == (m.isFile && !(countsItself && m.autoCount))
  }

  ghost predicate FreshEntry(e: Entry, allInMemory: bool, countsItself: bool) {
    && e.producers == [] && e.consumers == [] && e.fileDependencies == []
    && e.commitRule == "on_termination" && e.fireRule == "update" && e.closeCount == 0
    && !e.permanent && !e.excluded && e.autoCount && e.inMemory == allInMemory
    && e.childrenCount == (if countsItself then 1 else 0) && e.isFile == !countsItself
  }

  // What creating an unknown path leaves, without reference to how it is made: a copy of one of the
  // longest keys that match, or a fresh entry; and one more child in a counting parent.
  ghost predicate CreationRead(s: Store, p: string, s': Store) {
    && s'.allInMemory == s.allInMemory && s'.entries.Keys == s.entries.Keys + {p}
    && (if exists k :: k in s.entries && k != "" && Match(k, p) then
          exists k :: k in s.entries && k != "" && Match(k, p)
            && (forall j | j in s.entries && j != "" && Match(j, p) :: |j| <= |k|)
            && CopyOf(s'.entries[p], s.entries[k], s.allInMemory, Parent(p) == p)
        else
          FreshEntry(s'.entries[p], s.allInMemory, Parent(p) == p))
    && (forall q | q in s.entries ::
          s'.entries[q] == if q != "" && q == Parent(p) && s.entries[q].autoCount then
            s.entries[q].(childrenCount := s.entries[q].childrenCount + 1, isFile := false) else s.entries[q])
  }

  lemma CreatedReads(s: Store, p: string, s': Store)
    requires Created(s, p, s') && p != "" && p !in s.entries
    ensures CreationRead(s, p, s')
  {
    hide Match, Parent, Created, Placed, NewEntry, CopyOf, FreshEntry;
    CreationFrame(s, p, s');
    var source :| Source(s.entries, p, source) && s'.entries[p] == NewEntry(s, p, source);
    NewEntryReads(s, p, source);
    if source.Some? {
      assert Matching(s.entries, p, source.value);
      assert forall j | j in s.entries && j != "" && Match(j, p) :: Matching(s.entries, p, j);
    } else {
      assert forall k | k in s.entries && k != "" && Match(k, p) :: Matching(s.entries, p, k);
    }
  }

  lemma NewEntryReads(s: Store, p: string, source: Option<string>)
    requires source.Some? ==> source.value in s.entries
    ensures source.Some? ==> CopyOf(NewEntry(s, p, source), s.entries[source.value], s.allInMemory, Parent(p) == p)
    ensures source.None? ==> FreshEntry(NewEntry(s, p, source), s.allInMemory, Parent(p) == p)
  {
    hide Parent;
  }

  lemma CreatedExists(s: Store, p: string, s': Store)
    requires Created(s, p, s') && p != ""
    ensures p in s'.entries
  {
    if p !in s.entries {
      CreationFrame(s, p, s');
    }
  }

  // Some longest match, or its absence, always exists: creation never gets stuck.
  lemma CreationPossible(s: Store, p: string)
    ensures exists s' :: Created(s, p, s')
  {
    if p == "" || p in s.entries {
      assert Created(s, p, s);
    } else {
      var source := LongestMatch(s.entries, p);
      assert Created(s, p, Insert(s, p, source));
    }
  }

  lemma {:induction false} LongestMatch(es: EntryMap, p: string) returns (source: Option<string>)
    ensures Source(es, p, source)
  {
    if k :| Matching(es, p, k) {
      var rest := LongestMatch(es - {k}, p);
      source := if rest.Some? && |rest.value| > |k| then rest else Some(k);
      forall j | Matching(es, p, j)
        ensures |j| <= |source.value|
      {
        assert j == k || Matching(es - {k}, p, j);
      }
    } else {
      source := None;
    }
  }

  ghost predicate Deterministic(s: Store, p: string) {
    forall s1, s2 | Created(s, p, s1) && Created(s, p, s2) :: s1 == s2
  }

  ghost predicate SourcesAgree(s: Store, p: string) {
    forall j, k | Best(s.entries, p, j) && Best(s.entries, p, k) ::
      NewEntry(s, p, Some(j)) == NewEntry(s, p, Some(k))
  }

  // The outcome is independent of the iteration order exactly when all longest matches give the same
  // new entry; in particular when the longest match is unique.
  lemma CreationOrderIndependence(s: Store, p: string)
    requires p != "" && p !in s.entries
    ensures Deterministic(s, p) <==> SourcesAgree(s, p)
    ensures (forall j, k | Best(s.entries, p, j) && Best(s.entries, p, k) :: j == k) ==> SourcesAgree(s, p)
  {
    hide Parent, Match, Placed, Inherited, WithChild;
    if SourcesAgree(s, p) {
      forall s1, s2 | Created(s, p, s1) && Created(s, p, s2)
        ensures s1 == s2
      {
        var a :| Source(s.entries, p, a) && s1 == Insert(s, p, a);
        var b :| Source(s.entries, p, b) && s2 == Insert(s, p, b);
        assert NewEntry(s, p, a) == NewEntry(s, p, b);
        SameInsertion(s, p, a, b);
      }
    }
    if Deterministic(s, p) {
      forall j, k | Best(s.entries, p, j) && Best(s.entries, p, k)
        ensures NewEntry(s, p, Some(j)) == NewEntry(s, p, Some(k))
      {
        PlacedFrame(s, p, Inherited(s, Some(j)));
        PlacedFrame(s, p, Inherited(s, Some(k)));
        CreatedFrom(s, p, Some(j));
        CreatedFrom(s, p, Some(k));
      }
    }
  }

  lemma SameInsertion(s: Store, p: string, a: Option<string>, b: Option<string>)
    requires p != "" && p !in s.entries && Source(s.entries, p, a) && Source(s.entries, p, b)
    requires NewEntry(s, p, a) == NewEntry(s, p, b)
    ensures Insert(s, p, a) == Insert(s, p, b)
  {
    hide Parent, Match, Placed, Inherited, WithChild;
    PlacedFrame(s, p, Inherited(s, a));
    PlacedFrame(s, p, Inherited(s, b));
    assert Insert(s, p, a).entries == Insert(s, p, b).entries;
  }

  lemma CreatedFrom(s: Store, p: string, source: Option<string>)
    requires p != "" && p !in s.entries && Source(s.entries, p, source)
    ensures Created(s, p, Insert(s, p, source))
  {
  }

  // When no key matches p the new entry is the default one.
  lemma CreatedByDefault(s: Store, p: string, s': Store)
    requires p != "" && p !in s.entries && forall k | k in s.entries :: !Match(k, p)
    requires Created(s, p, s')
    ensures s' == Insert(s, p, None)
  {
  }

  // ---- setDirectoryFileCount ----

  // Every path known at the call, and p, become directories; p's child count is fixed at n.
  ghost predicate Pinned(s: Store, p: string, n: int, s': Store) {
    if p == "" then s' == s
    else exists m :: Created(s, p, m) && s' == Edited(EditedAll(m, SetKind(false)), p, PinChildren(n))
  }

  function Pinning(p: string, n: int): seq<Action> {
    if p == "" then [] else [New(p), EditAll(SetKind(false)), Edit(p, PinChildren(n))]
  }

  lemma PinnedRuns(s: Store, p: string, n: int, s': Store)
    requires Pinned(s, p, n, s')
    ensures Run(s, Pinning(p, n), s')
  {
    if p != "" {
      var m :| Created(s, p, m) && s' == Edited(EditedAll(m, SetKind(false)), p, PinChildren(n));
      var marked := EditedAll(m, SetKind(false));
      RunTwo(s, New(p), m, EditAll(SetKind(false)), marked);
      RunSnoc(s, [New(p), EditAll(SetKind(false))], marked, Edit(p, PinChildren(n)), s');
      hide Run;
      assert [New(p), EditAll(SetKind(false))] + [Edit(p, PinChildren(n))] == Pinning(p, n);
    }
  }

  // Marking every path a directory before p is created as well as after comes to the same as
  // marking them only after.
  lemma MarkBeforeCreate(s: Store, p: string, n: int, m: Store, s': Store)
    requires p != "" && p !in s.entries
    requires Created(EditedAll(s, SetKind(false)), p, m)
    requires Pinned(m, p, n, s')
    ensures Pinned(s, p, n, s')
  {
    var marked := EditedAll(s, SetKind(false));
    var source :| Source(marked.entries, p, source) && m == Insert(marked, p, source);
    assert Source(s.entries, p, source) by {
      assert forall k :: Matching(marked.entries, p, k) <==> Matching(s.entries, p, k);
    }
    CreatedFrom(s, p, source);
    MarkedInsert(s, p, source);
    assert forall t :: Created(m, p, t) ==> t == m;
  }

  lemma {:induction false} MarkedInsert(s: Store, p: string, source: Option<string>)
    requires p != "" && p !in s.entries && (source.Some? ==> source.value in s.entries)
    ensures EditedAll(Insert(EditedAll(s, SetKind(false)), p, source), SetKind(false))
         == EditedAll(Insert(s, p, source), SetKind(false))
  {
    var marked := EditedAll(s, SetKind(false));
    var e, f := Inherited(marked, source), Inherited(s, source);
    hide Parent, Match, Placed, Inherited, Apply, WithChild;
    PlacedFrame(marked, p, e);
    PlacedFrame(s, p, f);
    InheritedMarked(s, source);
    var a, b := Placed(marked, p, e).entries, Placed(s, p, f).entries;
    forall q | q in a
      ensures if q == "" then a[q] == b[q] else Apply(SetKind(false), a[q]) == Apply(SetKind(false), b[q])
    {
      if q != "" {
        MarkedChild(if q == p then e else marked.entries[q], if q == p then f else s.entries[q], q == Parent(p));
      }
    }
    SameImage(Placed(marked, p, e), Placed(s, p, f), SetKind(false));
  }

  lemma InheritedMarked(s: Store, source: Option<string>)
    requires source.Some? ==> source.value in s.entries
    ensures Inherited(EditedAll(s, SetKind(false)), source).(isFile := false) == Inherited(s, source).(isFile := false)
  {
    if source.Some? {
      var k := source.value;
      assert EditedAll(s, SetKind(false)).entries[k].(isFile := false) == s.entries[k].(isFile := false);
    }
  }

  lemma MarkedChild(e: Entry, f: Entry, child: bool)
    requires e.(isFile := false) == f.(isFile := false) || e == Apply(SetKind(false), f)
    ensures Apply(SetKind(false), WithChild(e, child)) == Apply(SetKind(false), WithChild(f, child))
  {
  }

  lemma SameImage(s: Store, t: Store, c: Change)
    requires s.allInMemory == t.allInMemory && s.entries.Keys == t.entries.Keys
    requires forall q | q in s.entries ::
      if q == "" then s.entries[q] == t.entries[q] else Apply(c, s.entries[q]) == Apply(c, t.entries[q])
    ensures EditedAll(s, c) == EditedAll(t, c)
  {
    hide Apply;
  }
}
