// The exact kind and child count that parsing a document leaves at each path: both depend on where
// in the document paths are first met, named by an item, or given a file count.
module Shapes {
  import opened Text
  import opened Glob
  import opened Paths
  import opened Entries
  import opened Store
  import opened Projection
  import opened Documents
  import opened Meaning

  // ---- The shape of one path over a run ----

  datatype Shape = Shape(isFile: bool, count: int, auto: bool)

  const NEW_SHAPE := Shape(true, 0, true)

  function ShapeOf(e: Entry): Shape {
    Shape(e.isFile, e.childrenCount, e.autoCount)
  }

  // The paths met so far and, once p is one of them, its shape.
  datatype Trail = Trail(met: set<string>, shape: Option<Shape>)

  const START := Trail({}, None)

  function Grown(s: Shape): Shape {
    if s.auto then s.(count := s.count + 1, isFile := false) else s
  }

  function Met(t: Trail, q: string, p: string): Trail {
    if q == "" || q in t.met then t
    else
      var shape := if q == p then Some(NEW_SHAPE) else t.shape;
      Trail(t.met + {q}, if Parent(q) == p && shape.Some? then Some(Grown(shape.value)) else shape)
  }

  function Reshaped(shape: Option<Shape>, c: Change): Option<Shape> {
    match shape
    case None => None
    case Some(s) =>
      if c.SetKind? then Some(s.(isFile := c.isFile))
      else if c.PinChildren? then Some(s.(count := c.count, auto := false))
      else shape
  }

  function TrailStep(t: Trail, a: Action, p: string): Trail {
    match a
    case New(q) => Met(t, q, p)
    case Edit(q, c) => if q == p then t.(shape := Reshaped(t.shape, c)) else t
    case EditAll(c) => t.(shape := Reshaped(t.shape, c))
    case Raise => t
    case Drop(q) => Trail(t.met - {q}, if q == p then None else t.shape)
  }

  function TrailRun(t: Trail, acts: seq<Action>, p: string): Trail {
    if acts == [] then t else TrailStep(TrailRun(t, acts[..|acts| - 1], p), acts[|acts| - 1], p)
  }

  lemma {:induction false} TrailRunConcat(t: Trail, acts: seq<Action>, more: seq<Action>, p: string)
    ensures TrailRun(t, acts + more, p) == TrailRun(TrailRun(t, acts, p), more, p)
  {
    hide TrailStep;
    if more == [] {
      assert acts + more == acts;
    } else {
      var all := acts + more;
      assert all[..|all| - 1] == acts + more[..|more| - 1];
      TrailRunConcat(t, acts, more[..|more| - 1], p);
    }
  }

  ghost predicate Follows(s: Store, t: Trail, p: string) {
    && t.met == s.entries.Keys
    && t.shape == if p in s.entries then Some(ShapeOf(s.entries[p])) else None
  }

  lemma ReshapedEntry(e: Entry, c: Change)
    ensures Reshaped(Some(ShapeOf(e)), c) == Some(ShapeOf(Apply(c, e)))
  {
  }

  lemma StepFollows(s: Store, a: Action, s': Store, t: Trail, p: string)
    requires p != "" && Follows(s, t, p) && Step(s, a, s')
    requires a.New? && a.p != "" && a.p !in s.entries ==> forall k | k in s.entries :: !Match(k, a.p)
    ensures Follows(s', TrailStep(t, a, p), p)
  {
    hide Match, Parent, Placed, Apply, Reshaped;
    match a
    case New(q) =>
      if q != "" && q !in s.entries {
        NewFollows(s, q, s', t, p);
      }
    case Edit(q, c) =>
      if p in s.entries {
        ReshapedEntry(s.entries[p], c);
      }
      NothingReshaped(c);
    case EditAll(c) =>
      if p in s.entries {
        ReshapedEntry(s.entries[p], c);
      }
      NothingReshaped(c);
    case Raise =>
    case Drop(q) =>
  }

  lemma NothingReshaped(c: Change)
    ensures Reshaped(None, c) == None
  {
  }

  lemma NewFollows(s: Store, q: string, s': Store, t: Trail, p: string)
    requires p != "" && Follows(s, t, p) && Created(s, q, s')
    requires q != "" && q !in s.entries && forall k | k in s.entries :: !Match(k, q)
    ensures Follows(s', Met(t, q, p), p)
  {
    CreatedByDefault(s, q, s');
    PlacedFrame(s, q, Inherited(s, None));
    hide Match, Placed, Created, Parent;
  }

  // When no created path matches another the trail of p tells its exact shape.
  lemma {:induction false} RunFollows(acts: seq<Action>, s: Store, p: string)
    requires Run(EMPTY_STORE, acts, s) && Isolated(acts) && p != ""
    ensures Follows(s, TrailRun(START, acts, p), p)
  {
    hide Step, TrailStep;
    if acts != [] {
      var init, last := acts[..|acts| - 1], acts[|acts| - 1];
      var m :| Run(EMPTY_STORE, init, m) && Step(m, last, s);
      hide Run, Follows;
      assert acts == init + [last];
      RunKeys(init, m);
      IsolatedPrefix(init, last, m, p);
      hide Isolated;
      RunFollows(init, m, p);
      StepFollows(m, last, s, TrailRun(START, init, p), p);
    }
  }

  // ---- The events of a document ----

  // A path is met, named by an item as a file or directory, or given a file count.
  datatype Event = Meet(path: string) | Name(path: string, isFile: bool) | Fix(path: string, count: int)

  function Meets(paths: seq<string>): (events: seq<Event>)
    ensures |events| == |paths|
  {
    seq(|paths|, i requires 0 <= i < |paths| => Meet(paths[i]))
  }

  function PathEvents(item: StreamItem, q: string): seq<Event> {
    if q == "" then []
    else
      [Meet(q)] + (if FileCount(item) != 0 then [Fix(q, FileCount(item))] else []) + [Name(q, item.isName)]
      + Meets(Dependencies(item))
  }

  function ItemEvents(item: StreamItem, paths: seq<string>): seq<Event> {
    if paths == [] then [] else ItemEvents(item, paths[..|paths| - 1]) + PathEvents(item, paths[|paths| - 1])
  }

  function StreamEvents(items: seq<StreamItem>): seq<Event> {
    if items == [] then []
    else StreamEvents(items[..|items| - 1]) + ItemEvents(items[|items| - 1], items[|items| - 1].paths)
  }

  function AppEvents(app: App): seq<Event> {
    Meets(app.inputs) + Meets(app.outputs) + StreamEvents(app.streaming)
  }

  function GraphEvents(apps: seq<App>): seq<Event> {
    if apps == [] then [] else GraphEvents(apps[..|apps| - 1]) + AppEvents(apps[|apps| - 1])
  }

  // In the order of the document.
  function DocumentEvents(doc: Document): seq<Event> {
    GraphEvents(doc.ioGraph) + (Meets(doc.permanent) + Meets(doc.exclude) + Meets(doc.memory) + Meets(doc.fileSystem))
  }

  function EventStep(t: Trail, e: Event, p: string): Trail {
    match e
    case Meet(q) => Met(t, q, p)
    case Name(q, isFile) => if q == p then t.(shape := Reshaped(t.shape, SetKind(isFile))) else t
    case Fix(q, n) =>
      var shape := Reshaped(t.shape, SetKind(false));
      t.(shape := if q == p then Reshaped(shape, PinChildren(n)) else shape)
  }

  function EventRun(t: Trail, events: seq<Event>, p: string): Trail {
    if events == [] then t else EventStep(EventRun(t, events[..|events| - 1], p), events[|events| - 1], p)
  }

  lemma {:induction false} EventRunConcat(t: Trail, events: seq<Event>, more: seq<Event>, p: string)
    ensures EventRun(t, events + more, p) == EventRun(EventRun(t, events, p), more, p)
  {
    hide EventStep;
    if more == [] {
      assert events + more == events;
    } else {
      var all := events + more;
      assert all[..|all| - 1] == events + more[..|more| - 1];
      EventRunConcat(t, events, more[..|more| - 1], p);
    }
  }

  lemma TrailOne(t: Trail, a: Action, p: string)
    ensures TrailRun(t, [a], p) == TrailStep(t, a, p)
  {
    hide TrailStep;
    assert [a][..0] == [];
  }

  lemma EventOne(t: Trail, e: Event, p: string)
    ensures EventRun(t, [e], p) == EventStep(t, e, p)
  {
    hide EventStep;
    assert [e][..0] == [];
  }

  lemma MetAgain(t: Trail, q: string, p: string)
    ensures Met(Met(t, q, p), q, p) == Met(t, q, p)
  {
    hide Parent;
  }

  // A setter meets its path and then reshapes it.
  lemma SettingTrail(t: Trail, q: string, c: Change, p: string)
    requires p != ""
    ensures TrailRun(t, Setting(q, c), p) ==
      if q == p then Met(t, q, p).(shape := Reshaped(Met(t, q, p).shape, c)) else Met(t, q, p)
  {
    hide Met, Reshaped;
    if q == "" {
      EmptyMet(t, p);
    } else {
      assert Setting(q, c) == [New(q)] + [Edit(q, c)];
      TrailRunConcat(t, [New(q)], [Edit(q, c)], p);
      TrailOne(t, New(q), p);
      TrailOne(Met(t, q, p), Edit(q, c), p);
      hide TrailRun;
    }
  }

  lemma EmptyMet(t: Trail, p: string)
    ensures Met(t, "", p) == t
  {
  }

  predicate KeepsShape(c: Change) {
    !c.SetKind? && !c.PinChildren?
  }

  lemma PlainSettingTrail(t: Trail, q: string, c: Change, p: string)
    requires p != "" && KeepsShape(c)
    ensures TrailRun(t, Setting(q, c), p) == Met(t, q, p)
  {
    hide Met, TrailRun;
    SettingTrail(t, q, c, p);
  }

  lemma PinningTrail(t: Trail, q: string, n: int, p: string)
    requires p != "" && q != ""
    ensures TrailRun(t, Pinning(q, n), p) == EventStep(Met(t, q, p), Fix(q, n), p)
  {
    hide Met, Reshaped;
    var acts := [New(q), EditAll(SetKind(false))];
    assert acts == [New(q)] + [EditAll(SetKind(false))];
    assert Pinning(q, n) == acts + [Edit(q, PinChildren(n))];
    TrailRunConcat(t, acts, [Edit(q, PinChildren(n))], p);
    TrailRunConcat(t, [New(q)], [EditAll(SetKind(false))], p);
    TrailOne(t, New(q), p);
    TrailOne(Met(t, q, p), EditAll(SetKind(false)), p);
    TrailOne(TrailRun(t, acts, p), Edit(q, PinChildren(n)), p);
    hide TrailRun;
  }

  lemma {:induction false} MeetsRun(t: Trail, paths: seq<string>, p: string)
    ensures TrailRun(t, Creations(paths), p) == EventRun(t, Meets(paths), p)
  {
    hide Met;
    if paths != [] {
      var init, last := paths[..|paths| - 1], paths[|paths| - 1];
      MeetsRun(t, init, p);
      TrailRunConcat(t, Creations(init), [New(last)], p);
      TrailOne(TrailRun(t, Creations(init), p), New(last), p);
      assert Meets(paths)[..|init|] == Meets(init);
    }
  }

  lemma {:induction false} MetGrows(t: Trail, events: seq<Event>, p: string)
    ensures t.met <= EventRun(t, events, p).met
  {
    hide Parent, Reshaped;
    if events != [] {
      MetGrows(t, events[..|events| - 1], p);
    }
  }

  lemma DependenciesTrail(t: Trail, q: string, paths: seq<string>, p: string)
    requires p != "" && q in t.met
    ensures TrailRun(t, SettingDependencies(q, paths), p) == if q == "" then t else EventRun(t, Meets(paths), p)
  {
    if q != "" && paths != [] {
      hide TrailRun, EventRun, Creations, Setting, Met, Meets;
      TrailRunConcat(t, Creations(paths), Setting(q, SetDependencies(paths)), p);
      MeetsRun(t, paths, p);
      var t1 := EventRun(t, Meets(paths), p);
      PlainSettingTrail(t1, q, SetDependencies(paths), p);
      MetGrows(t, Meets(paths), p);
      MetKnown(t1, q, p);
    }
  }

  lemma MetKnown(t: Trail, q: string, p: string)
    requires q in t.met
    ensures Met(t, q, p) == t
  {
  }

  lemma PathTrail(t: Trail, item: StreamItem, q: string, p: string)
    requires p != ""
    ensures TrailRun(t, PathActions(item, q), p) == EventRun(t, PathEvents(item, q), p)
  {
    if q == "" {
      NoPathActions(item);
    } else {
      hide TrailRun, EventRun, Setting, Pinning, SettingDependencies, Met, Meets, Reshaped, Rule, Mode, CloseCount,
        Dependencies, FileCount;
      var n := if CloseCount(item).Some? then CloseCount(item).value else 0;
      var a0 := if FileCount(item) != 0 then Pinning(q, FileCount(item)) else [];
      var a1, a2, a3, a4 := Setting(q, SetKind(item.isName)), Setting(q, SetCommitRule(Rule(item))),
        Setting(q, SetFireRule(Mode(item))), Setting(q, SetCloseCount(n));
      var a5 := SettingDependencies(q, Dependencies(item));
      TrailRunConcat(t, a0 + a1 + a2 + a3 + a4, a5, p);
      TrailRunConcat(t, a0 + a1 + a2 + a3, a4, p);
      TrailRunConcat(t, a0 + a1 + a2, a3, p);
      TrailRunConcat(t, a0 + a1, a2, p);
      TrailRunConcat(t, a0, a1, p);
      var named := NamedTrail(t, item, q, p);
      PlainSettingTrail(named, q, SetCommitRule(Rule(item)), p);
      PlainSettingTrail(named, q, SetFireRule(Mode(item)), p);
      PlainSettingTrail(named, q, SetCloseCount(n), p);
      MetKnown(named, q, p);
      DependenciesTrail(named, q, Dependencies(item), p);
      var e0 := [Meet(q)] + (if FileCount(item) != 0 then [Fix(q, FileCount(item))] else []) + [Name(q, item.isName)];
      EventRunConcat(t, e0, Meets(Dependencies(item)), p);
    }
  }

  lemma NoPathActions(item: StreamItem)
    ensures PathActions(item, "") == [] && PathEvents(item, "") == []
  {
    hide Rule, Mode, CloseCount, Dependencies, FileCount;
  }

  // Fixing, if any, and naming.
  lemma NamedTrail(t: Trail, item: StreamItem, q: string, p: string) returns (named: Trail)
    requires p != "" && q != ""
    ensures named == TrailRun(TrailRun(t, if FileCount(item) != 0 then Pinning(q, FileCount(item)) else [], p),
                              Setting(q, SetKind(item.isName)), p)
    ensures named == EventRun(t,
      [Meet(q)] + (if FileCount(item) != 0 then [Fix(q, FileCount(item))] else []) + [Name(q, item.isName)], p)
    ensures q in named.met
  {
    hide TrailRun, EventRun, Setting, Pinning, Reshaped, FileCount;
    var n := FileCount(item);
    var fix := if n != 0 then [Fix(q, n)] else [];
    var fixed := TrailRun(t, if n != 0 then Pinning(q, n) else [], p);
    NothingRun(t, p);
    if n != 0 {
      PinningTrail(t, q, n, p);
    }
    SettingTrail(fixed, q, SetKind(item.isName), p);
    named := TrailRun(fixed, Setting(q, SetKind(item.isName)), p);
    EventRunConcat(t, [Meet(q)] + fix, [Name(q, item.isName)], p);
    EventRunConcat(t, [Meet(q)], fix, p);
    EventOne(t, Meet(q), p);
    NothingRun(Met(t, q, p), p);
    EventOne(Met(t, q, p), Fix(q, n), p);
    EventOne(EventRun(t, [Meet(q)] + fix, p), Name(q, item.isName), p);
    hide Parent;
  }

  lemma NothingRun(t: Trail, p: string)
    ensures TrailRun(t, [], p) == t && EventRun(t, [], p) == t
  {
  }

  lemma {:induction false} ItemTrail(t: Trail, item: StreamItem, paths: seq<string>, p: string)
    requires p != ""
    ensures TrailRun(t, ItemActions(item, paths), p) == EventRun(t, ItemEvents(item, paths), p)
  {
    hide TrailStep, EventStep, PathActions, PathEvents;
    if paths != [] {
      var init, last := paths[..|paths| - 1], paths[|paths| - 1];
      ItemTrail(t, item, init, p);
      TrailRunConcat(t, ItemActions(item, init), PathActions(item, last), p);
      EventRunConcat(t, ItemEvents(item, init), PathEvents(item, last), p);
      PathTrail(TrailRun(t, ItemActions(item, init), p), item, last, p);
    }
  }

  lemma {:induction false} StreamTrail(t: Trail, items: seq<StreamItem>, p: string)
    requires p != ""
    ensures TrailRun(t, StreamActions(items), p) == EventRun(t, StreamEvents(items), p)
  {
    hide TrailStep, EventStep, ItemActions, ItemEvents;
    if items != [] {
      var init, last := items[..|items| - 1], items[|items| - 1];
      StreamTrail(t, init, p);
      TrailRunConcat(t, StreamActions(init), ItemActions(last, last.paths), p);
      EventRunConcat(t, StreamEvents(init), ItemEvents(last, last.paths), p);
      ItemTrail(TrailRun(t, StreamActions(init), p), last, last.paths, p);
    }
  }

  lemma {:induction false} ListTrail(t: Trail, paths: seq<string>, c: Change, p: string)
    requires p != "" && KeepsShape(c)
    ensures TrailRun(t, ListActions(paths, c), p) == EventRun(t, Meets(paths), p)
  {
    hide Met, Setting;
    if paths != [] {
      var init, last := paths[..|paths| - 1], paths[|paths| - 1];
      ListTrail(t, init, c, p);
      var m := TrailRun(t, ListActions(init, c), p);
      TrailRunConcat(t, ListActions(init, c), [New(last)] + Setting(last, c), p);
      TrailRunConcat(m, [New(last)], Setting(last, c), p);
      TrailOne(m, New(last), p);
      PlainSettingTrail(Met(m, last, p), last, c, p);
      MetAgain(m, last, p);
      assert Meets(paths)[..|init|] == Meets(init);
    }
  }

  lemma {:induction false} StorageTrail(t: Trail, paths: seq<string>, inMemory: bool, p: string)
    requires p != ""
    ensures TrailRun(t, StorageActions(paths, inMemory), p) == EventRun(t, Meets(paths), p)
  {
    hide Met, Setting;
    if paths != [] {
      var init, last := paths[..|paths| - 1], paths[|paths| - 1];
      StorageTrail(t, init, inMemory, p);
      TrailRunConcat(t, StorageActions(init, inMemory), Setting(last, SetInMemory(inMemory)), p);
      PlainSettingTrail(TrailRun(t, StorageActions(init, inMemory), p), last, SetInMemory(inMemory), p);
      assert Meets(paths)[..|init|] == Meets(init);
    }
  }

  lemma AppTrail(t: Trail, app: App, p: string)
    requires p != ""
    ensures TrailRun(t, AppActions(app), p) == EventRun(t, AppEvents(app), p)
  {
    hide TrailRun, EventRun, ListActions, StreamActions, StreamEvents, Meets, Strip;
    var consume, produce := AddConsumer(Strip(app.name)), AddProducer(Strip(app.name));
    var inputs, outputs := ListActions(app.inputs, consume), ListActions(app.outputs, produce);
    TrailRunConcat(t, inputs + outputs, StreamActions(app.streaming), p);
    TrailRunConcat(t, inputs, outputs, p);
    EventRunConcat(t, Meets(app.inputs) + Meets(app.outputs), StreamEvents(app.streaming), p);
    EventRunConcat(t, Meets(app.inputs), Meets(app.outputs), p);
    ListTrail(t, app.inputs, consume, p);
    ListTrail(TrailRun(t, inputs, p), app.outputs, produce, p);
    StreamTrail(TrailRun(t, inputs + outputs, p), app.streaming, p);
  }

  lemma {:induction false} GraphTrail(t: Trail, apps: seq<App>, p: string)
    requires p != ""
    ensures TrailRun(t, GraphActions(apps), p) == EventRun(t, GraphEvents(apps), p)
  {
    hide TrailStep, EventStep, AppActions, AppEvents;
    if apps != [] {
      var init, last := apps[..|apps| - 1], apps[|apps| - 1];
      GraphTrail(t, init, p);
      TrailRunConcat(t, GraphActions(init), AppActions(last), p);
      EventRunConcat(t, GraphEvents(init), AppEvents(last), p);
      AppTrail(TrailRun(t, GraphActions(init), p), last, p);
    }
  }

  lemma TailTrail(t: Trail, doc: Document, memoryOnly: bool, p: string)
    requires p != ""
    ensures TrailRun(t, TailActions(doc, memoryOnly), p) ==
      EventRun(t, Meets(doc.permanent) + Meets(doc.exclude) + Meets(doc.memory) + Meets(doc.fileSystem), p)
  {
    hide TrailRun, EventRun, ListActions, StorageActions, Meets;
    var a1, a2 := ListActions(doc.permanent, SetPermanent(true)), ListActions(doc.exclude, SetExcluded(true));
    var a3, a4 := StorageActions(doc.memory, true), StorageActions(doc.fileSystem, false);
    var a5 := if memoryOnly then [Raise, EditAll(SetInMemory(true))] else [];
    TrailRunConcat(t, a1 + a2 + a3 + a4, a5, p);
    TrailRunConcat(t, a1 + a2 + a3, a4, p);
    TrailRunConcat(t, a1 + a2, a3, p);
    TrailRunConcat(t, a1, a2, p);
    EventRunConcat(t, Meets(doc.permanent) + Meets(doc.exclude) + Meets(doc.memory), Meets(doc.fileSystem), p);
    EventRunConcat(t, Meets(doc.permanent) + Meets(doc.exclude), Meets(doc.memory), p);
    EventRunConcat(t, Meets(doc.permanent), Meets(doc.exclude), p);
    ListTrail(t, doc.permanent, SetPermanent(true), p);
    ListTrail(TrailRun(t, a1, p), doc.exclude, SetExcluded(true), p);
    StorageTrail(TrailRun(t, a1 + a2, p), doc.memory, true, p);
    StorageTrail(TrailRun(t, a1 + a2 + a3, p), doc.fileSystem, false, p);
    RaisingTrail(TrailRun(t, a1 + a2 + a3 + a4, p), memoryOnly, p);
  }

  lemma RaisingTrail(t: Trail, memoryOnly: bool, p: string)
    ensures TrailRun(t, if memoryOnly then [Raise, EditAll(SetInMemory(true))] else [], p) == t
  {
    if memoryOnly {
      assert [Raise, EditAll(SetInMemory(true))] == [Raise] + [EditAll(SetInMemory(true))];
      TrailRunConcat(t, [Raise], [EditAll(SetInMemory(true))], p);
      TrailOne(t, Raise, p);
      TrailOne(t, EditAll(SetInMemory(true)), p);
      hide TrailRun;
    }
  }

  lemma DocumentTrail(doc: Document, memoryOnly: bool, p: string)
    requires p != ""
    ensures TrailRun(START, DocumentActions(doc, memoryOnly), p) == EventRun(START, DocumentEvents(doc), p)
  {
    hide TrailRun, EventRun, GraphActions, TailActions, GraphEvents, Meets;
    var tail := Meets(doc.permanent) + Meets(doc.exclude) + Meets(doc.memory) + Meets(doc.fileSystem);
    TrailRunConcat(START, GraphActions(doc.ioGraph), TailActions(doc, memoryOnly), p);
    EventRunConcat(START, GraphEvents(doc.ioGraph), tail, p);
    GraphTrail(START, doc.ioGraph, p);
    TailTrail(TrailRun(START, GraphActions(doc.ioGraph), p), doc, memoryOnly, p);
  }

  // ---- Reading the shape off the events ----

  // The event meets a child of p for the first time, p being met by then.
  predicate Enters(events: seq<Event>, j: nat, p: string)
    requires j < |events|
  {
    && events[j].Meet? && events[j].path != "" && Parent(events[j].path) == p
    && events[j] !in events[..j]
    && Meet(p) in events[..j + 1]
  }

  predicate Fixed(events: seq<Event>, p: string) {
    exists e | e in events :: e.Fix? && e.path == p
  }

  // The event makes a directory of p, once met: a file count is fixed anywhere, or a child enters
  // while p counts its children.
  predicate MakesDirectory(events: seq<Event>, j: nat, p: string)
    requires j < |events|
  {
    && Meet(p) in events[..j + 1]
    && (events[j].Fix? || (Enters(events, j, p) && !Fixed(events[..j], p)))
  }

  predicate Names(e: Event, p: string) {
    e.Name? && e.path == p
  }

  // Some event makes a directory of p after the last one that names it.
  ghost predicate DirectoryAtEnd(events: seq<Event>, p: string) {
    exists j | 0 <= j < |events| :: MakesDirectory(events, j, p) && forall k | j < k < |events| :: !Names(events[k], p)
  }

  function LastKind(events: seq<Event>, p: string): Option<bool> {
    if events == [] then None
    else if Names(events[|events| - 1], p) then Some(events[|events| - 1].isFile)
    else LastKind(events[..|events| - 1], p)
  }

  // How many children of p are met first after p.
  function Members(events: seq<Event>, p: string): nat {
    if events == [] then 0
    else Members(events[..|events| - 1], p) + (if Enters(events, |events| - 1, p) then 1 else 0)
  }

  // Paths are named and fixed only once met.
  ghost predicate Ordered(events: seq<Event>) {
    forall j | 0 <= j < |events| && !events[j].Meet? :: Meet(events[j].path) in events[..j]
  }

  ghost predicate Tells(events: seq<Event>, p: string, shape: Option<Shape>) {
    && (shape.Some? <==> Meet(p) in events)
    && (shape.Some? ==>
          && (shape.value.isFile <==> GetOr(LastKind(events, p), true) && !DirectoryAtEnd(events, p))
          && (shape.value.auto <==> !Fixed(events, p))
          && (shape.value.auto ==> shape.value.count == Members(events, p)))
  }

  lemma DirectorySnoc(events: seq<Event>, e: Event, p: string)
    ensures var all := events + [e];
      DirectoryAtEnd(all, p) <==> MakesDirectory(all, |events|, p) || (DirectoryAtEnd(events, p) && !Names(e, p))
  {
    hide Names, Enters, Fixed;
    var all := events + [e];
    forall j | 0 <= j < |events|
      ensures MakesDirectory(all, j, p) <==> MakesDirectory(events, j, p)
    {
      assert all[..j] == events[..j] && all[..j + 1] == events[..j + 1];
      SameEntry(events, e, j, p);
    }
    hide MakesDirectory;
    if DirectoryAtEnd(all, p) && !MakesDirectory(all, |events|, p) {
      var j :| 0 <= j < |all| && MakesDirectory(all, j, p) && forall k | j < k < |all| :: !Names(all[k], p);
      assert forall k | j < k < |events| :: !Names(all[k], p) && all[k] == events[k];
      assert !Names(all[|events|], p);
    }
    if DirectoryAtEnd(events, p) && !Names(e, p) {
      var j :| 0 <= j < |events| && MakesDirectory(events, j, p) && forall k | j < k < |events| :: !Names(events[k], p);
      assert MakesDirectory(all, j, p) && forall k | j < k < |all| :: !Names(all[k], p);
    }
  }

  lemma SameEntry(events: seq<Event>, e: Event, j: nat, p: string)
    requires j < |events|
    ensures Enters(events + [e], j, p) <==> Enters(events, j, p)
  {
    var all := events + [e];
    assert all[..j] == events[..j] && all[..j + 1] == events[..j + 1];
  }

  // Nothing is said of a path before it is met.
  lemma {:induction false} Unmet(events: seq<Event>, p: string)
    requires Ordered(events) && Meet(p) !in events
    ensures LastKind(events, p) == None && !Fixed(events, p) && Members(events, p) == 0 && !DirectoryAtEnd(events, p)
  {
    hide Enters;
    forall j | 0 <= j < |events|
      ensures !MakesDirectory(events, j, p)
    {
      assert Meet(p) !in events[..j + 1];
    }
    UnmetMembers(events, p);
    if events != [] {
      var init, last := events[..|events| - 1], events[|events| - 1];
      assert events == init + [last];
      assert forall j | 0 <= j < |init| :: init[..j] == events[..j];
      Unmet(init, p);
      assert events[|events| - 1] == last;
    }
  }

  lemma {:induction false} UnmetMembers(events: seq<Event>, p: string)
    requires Meet(p) !in events
    ensures Members(events, p) == 0
  {
    if events != [] {
      assert events[..|events| - 1 + 1] == events;
      UnmetMembers(events[..|events| - 1], p);
    }
  }

  lemma LastSnoc(events: seq<Event>, e: Event, p: string)
    ensures LastKind(events + [e], p) == if Names(e, p) then Some(e.isFile) else LastKind(events, p)
    ensures Members(events + [e], p) == Members(events, p) + if Enters(events + [e], |events|, p) then 1 else 0
    ensures Fixed(events + [e], p) <==> Fixed(events, p) || (e.Fix? && e.path == p)
  {
    hide Enters, Names;
    assert (events + [e])[..|events|] == events;
    assert e in events + [e] && forall x | x in events :: x in events + [e];
  }

  ghost predicate TracksMet(t: Trail, events: seq<Event>) {
    forall q :: q in t.met <==> q != "" && Meet(q) in events
  }

  lemma EventTells(events: seq<Event>, e: Event, t: Trail, p: string)
    requires p != "" && Ordered(events) && (!e.Meet? ==> Meet(e.path) in events)
    requires TracksMet(t, events) && Tells(events, p, t.shape)
    ensures TracksMet(EventStep(t, e, p), events + [e]) && Tells(events + [e], p, EventStep(t, e, p).shape)
  {
    hide Parent, DirectoryAtEnd, Members, LastKind, Fixed, Ordered;
    var all := events + [e];
    assert all[..|events|] == events && all[..|events| + 1] == all;
    LastSnoc(events, e, p);
    DirectorySnoc(events, e, p);
    if Meet(p) !in events {
      Unmet(events, p);
    }
  }

  lemma {:induction false} RunTells(events: seq<Event>, p: string)
    requires p != "" && Ordered(events)
    ensures var t := EventRun(START, events, p);
      TracksMet(t, events) && Tells(events, p, t.shape)
  {
    hide EventStep, Tells, TracksMet;
    if events == [] {
      NothingTold(p);
    } else {
      var init, last := events[..|events| - 1], events[|events| - 1];
      assert events == init + [last];
      assert forall j | 0 <= j < |init| :: init[..j] == events[..j];
      RunTells(init, p);
      EventTells(init, last, EventRun(START, init, p), p);
    }
  }

  lemma NothingTold(p: string)
    ensures TracksMet(START, []) && Tells([], p, None)
  {
  }

  // ---- A document's events ----

  lemma OrderedConcat(events: seq<Event>, more: seq<Event>)
    requires Ordered(events) && Ordered(more)
    ensures Ordered(events + more)
  {
    var all := events + more;
    forall j | 0 <= j < |all| && !all[j].Meet?
      ensures Meet(all[j].path) in all[..j]
    {
      if j < |events| {
        assert all[..j] == events[..j];
      } else {
        assert all[..j] == events + more[..j - |events|];
      }
    }
  }

  lemma MeetsOrdered(paths: seq<string>)
    ensures Ordered(Meets(paths))
    ensures forall p :: LastKind(Meets(paths), p) == None
  {
    forall p
      ensures LastKind(Meets(paths), p) == None
    {
      NoNames(Meets(paths), p);
    }
  }

  lemma {:induction false} NoNames(events: seq<Event>, p: string)
    requires forall e | e in events :: !Names(e, p)
    ensures LastKind(events, p) == None
  {
    if events != [] {
      NoNames(events[..|events| - 1], p);
    }
  }

  lemma {:induction false} LastKindConcat(events: seq<Event>, more: seq<Event>, p: string)
    ensures LastKind(events + more, p) ==
      if LastKind(more, p).Some? then LastKind(more, p) else LastKind(events, p)
  {
    hide Names;
    if more == [] {
      assert events + more == events;
    } else {
      var all := events + more;
      assert all[..|all| - 1] == events + more[..|more| - 1];
      LastKindConcat(events, more[..|more| - 1], p);
    }
  }

  lemma PathEventsRead(item: StreamItem, q: string, p: string)
    requires p != ""
    ensures Ordered(PathEvents(item, q))
    ensures LastKind(PathEvents(item, q), p) == if p == q then Some(item.isName) else None
  {
    hide FileCount, Dependencies, Meets, LastKind;
    if q == "" {
      NoNames([], p);
    } else {
      var head := [Meet(q)] + (if FileCount(item) != 0 then [Fix(q, FileCount(item))] else []);
      var named := head + [Name(q, item.isName)];
      assert head[0] == Meet(q) && forall j | 0 < j <= |head| :: Meet(q) in named[..j] by {
        forall j | 0 < j <= |head|
          ensures Meet(q) in named[..j]
        {
          assert named[..j][0] == Meet(q);
        }
      }
      MeetsOrdered(Dependencies(item));
      OrderedConcat(named, Meets(Dependencies(item)));
      LastKindConcat(named, Meets(Dependencies(item)), p);
      LastSnoc(head, Name(q, item.isName), p);
      NoNames(head, p);
    }
  }

  lemma {:induction false} ItemEventsRead(item: StreamItem, paths: seq<string>, p: string)
    requires p != ""
    ensures Ordered(ItemEvents(item, paths))
    ensures LastKind(ItemEvents(item, paths), p) == if p in paths then Some(item.isName) else None
  {
    hide PathEvents, Ordered;
    if paths == [] {
      NothingOrdered();
    } else {
      var init, last := paths[..|paths| - 1], paths[|paths| - 1];
      assert paths == init + [last];
      ItemEventsRead(item, init, p);
      PathEventsRead(item, last, p);
      OrderedConcat(ItemEvents(item, init), PathEvents(item, last));
      LastKindConcat(ItemEvents(item, init), PathEvents(item, last), p);
    }
  }

  lemma NothingOrdered()
    ensures Ordered([])
  {
  }

  function KindOf(item: Option<StreamItem>): Option<bool> {
    if item.Some? then Some(item.value.isName) else None
  }

  lemma {:induction false} StreamEventsRead(items: seq<StreamItem>, p: string)
    requires p != ""
    ensures Ordered(StreamEvents(items))
    ensures LastKind(StreamEvents(items), p) == KindOf(LastItem(items, p))
  {
    hide ItemEvents, Ordered;
    if items == [] {
      NothingOrdered();
    } else {
      var init, last := items[..|items| - 1], items[|items| - 1];
      StreamEventsRead(init, p);
      ItemEventsRead(last, last.paths, p);
      OrderedConcat(StreamEvents(init), ItemEvents(last, last.paths));
      LastKindConcat(StreamEvents(init), ItemEvents(last, last.paths), p);
    }
  }

  lemma {:induction false} LastItemConcat(items: seq<StreamItem>, more: seq<StreamItem>, p: string)
    ensures LastItem(items + more, p) == if LastItem(more, p).Some? then LastItem(more, p) else LastItem(items, p)
  {
    if more == [] {
      assert items + more == items;
    } else {
      var all := items + more;
      assert all[..|all| - 1] == items + more[..|more| - 1];
      LastItemConcat(items, more[..|more| - 1], p);
    }
  }

  lemma AppEventsRead(app: App, p: string)
    requires p != ""
    ensures Ordered(AppEvents(app))
    ensures LastKind(AppEvents(app), p) == KindOf(LastItem(app.streaming, p))
  {
    hide Meets, StreamEvents, LastKind, Ordered;
    MeetsOrdered(app.inputs);
    MeetsOrdered(app.outputs);
    StreamEventsRead(app.streaming, p);
    OrderedConcat(Meets(app.inputs), Meets(app.outputs));
    OrderedConcat(Meets(app.inputs) + Meets(app.outputs), StreamEvents(app.streaming));
    LastKindConcat(Meets(app.inputs), Meets(app.outputs), p);
    LastKindConcat(Meets(app.inputs) + Meets(app.outputs), StreamEvents(app.streaming), p);
  }

  lemma {:induction false} GraphEventsRead(apps: seq<App>, p: string)
    requires p != ""
    ensures Ordered(GraphEvents(apps))
    ensures LastKind(GraphEvents(apps), p) == KindOf(LastItem(AllItems(apps), p))
  {
    hide AppEvents, Ordered, LastItem;
    if apps == [] {
      NothingOrdered();
      NoItems(p);
    } else {
      var init, last := apps[..|apps| - 1], apps[|apps| - 1];
      GraphEventsRead(init, p);
      AppEventsRead(last, p);
      OrderedConcat(GraphEvents(init), AppEvents(last));
      LastKindConcat(GraphEvents(init), AppEvents(last), p);
      LastItemConcat(AllItems(init), last.streaming, p);
    }
  }

  lemma DocumentEventsRead(doc: Document, p: string)
    requires p != ""
    ensures Ordered(DocumentEvents(doc))
    ensures LastKind(DocumentEvents(doc), p) == KindOf(LastItem(AllItems(doc.ioGraph), p))
  {
    hide GraphEvents, Meets, LastKind, Ordered, LastItem, AllItems;
    GraphEventsRead(doc.ioGraph, p);
    var tail := doc.permanent + doc.exclude + doc.memory + doc.fileSystem;
    MeetsConcat(doc);
    MeetsOrdered(tail);
    OrderedConcat(GraphEvents(doc.ioGraph), Meets(tail));
    LastKindConcat(GraphEvents(doc.ioGraph), Meets(tail), p);
  }

  lemma MeetsConcat(doc: Document)
    ensures Meets(doc.permanent) + Meets(doc.exclude) + Meets(doc.memory) + Meets(doc.fileSystem)
         == Meets(doc.permanent + doc.exclude + doc.memory + doc.fileSystem)
  {
  }

  // ---- Parsing computes the meaning exactly ----

  // The entry that parsing leaves at p: the one described, but a directory when some event makes it
  // one after the last that names it, and with its children counted unless its count is fixed.
  ghost function ParsedEntry(doc: Document, memoryOnly: bool, p: string): Entry {
    var d, events := Described(doc, memoryOnly, p), DocumentEvents(doc);
    d.(isFile := d.isFile && !DirectoryAtEnd(events, p),
       childrenCount := if d.autoCount then Members(events, p) else d.childrenCount)
  }

  // When no mentioned path matches another, the engine parsed from a document holds exactly the
  // mentioned paths, each with exactly this entry.
  lemma {:induction false} ParsedMeaning(doc: Document, memoryOnly: bool, s: Store, p: string)
    requires Run(EMPTY_STORE, DocumentActions(doc, memoryOnly), s) && Separated(doc) && p != ""
    ensures p in s.entries <==> Mentions(doc, p)
    ensures p in s.entries ==> s.entries[p] == ParsedEntry(doc, memoryOnly, p)
  {
    hide Run, DocumentActions, Mentions, Match, Parent, Described, DocumentEvents, EventRun, TrailRun, Separated,
      NoChildMentioned, NoPins, AllItems, LastKind, DirectoryAtEnd, Members, Fixed, Ordered, LastItem, GraphWritten;
    ParsedRules(doc, memoryOnly, s, p);
    if p in s.entries {
      SeparatedActions(doc, memoryOnly, p);
      RunFollows(DocumentActions(doc, memoryOnly), s, p);
      DocumentTrail(doc, memoryOnly, p);
      DocumentEventsRead(doc, p);
      RunTells(DocumentEvents(doc), p);
      DescribedKind(doc, memoryOnly, p);
    }
  }

  lemma DescribedKind(doc: Document, memoryOnly: bool, p: string)
    ensures Described(doc, memoryOnly, p).isFile == GetOr(KindOf(LastItem(AllItems(doc.ioGraph), p)), true)
  {
    hide Described, AllItems, LastItem, LastDependencies, LastFileCount;
    DescribedReads(doc, memoryOnly, p);
  }
}
