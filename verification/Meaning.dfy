// What a document means for one path, stated without engine actions, and the proof that parsing
// computes it, apart from what fixing counts and meeting children do to directories.
module Meaning {
  import opened Text
  import opened Glob
  import opened Paths
  import opened Entries
  import opened Store
  import opened Projection
  import opened Documents

  // ---- The meaning ----

  // What a streaming item writes into the entry of a path it names.
  function Written(e: Entry, item: StreamItem): Entry {
    var e := e.(
      isFile := item.isName, commitRule := Rule(item), fireRule := Mode(item),
      closeCount := if CloseCount(item).Some? then CloseCount(item).value else 0,
      fileDependencies := if Dependencies(item) != [] then Dependencies(item) else e.fileDependencies);
    if FileCount(item) != 0 then e.(childrenCount := FileCount(item), autoCount := false) else e
  }

  function StreamWritten(e: Entry, items: seq<StreamItem>, p: string): Entry {
    if items == [] then e
    else
      var before, last := StreamWritten(e, items[..|items| - 1], p), items[|items| - 1];
      if p in last.paths then Written(before, last) else before
  }

  function AppWritten(e: Entry, app: App, p: string): Entry {
    var e := if p in app.inputs then Apply(AddConsumer(Strip(app.name)), e) else e;
    var e := if p in app.outputs then Apply(AddProducer(Strip(app.name)), e) else e;
    StreamWritten(e, app.streaming, p)
  }

  function GraphWritten(apps: seq<App>, p: string): Entry {
    if apps == [] then DEFAULT_ENTRY
    else AppWritten(GraphWritten(apps[..|apps| - 1], p), apps[|apps| - 1], p)
  }

  // The entry a document describes at p.
  function Described(doc: Document, memoryOnly: bool, p: string): Entry {
    GraphWritten(doc.ioGraph, p).(
      permanent := p in doc.permanent,
      excluded := p in doc.exclude,
      inMemory := memoryOnly || (p in doc.memory && p !in doc.fileSystem))
  }

  predicate ItemMentions(item: StreamItem, p: string) {
    p in item.paths || (p in Dependencies(item) && exists q | q in item.paths :: q != "")
  }

  predicate AppMentions(app: App, p: string) {
    p in app.inputs || p in app.outputs || exists item | item in app.streaming :: ItemMentions(item, p)
  }

  predicate Mentions(doc: Document, p: string) {
    || (exists app | app in doc.ioGraph :: AppMentions(app, p))
    || p in doc.permanent || p in doc.exclude || p in doc.memory || p in doc.fileSystem
  }

  // No mentioned path matches another.
  ghost predicate Separated(doc: Document) {
    forall p, q | Mentions(doc, p) && Mentions(doc, q) && p != "" && q != "" && p != q :: !Match(p, q)
  }

  ghost predicate NoChildMentioned(doc: Document, p: string) {
    forall q | Mentions(doc, q) && q != "" :: Parent(q) != p
  }

  // No item fixes a directory's file count, which turns every path known so far into a directory.
  predicate NoPins(items: seq<StreamItem>) {
    forall item | item in items :: FileCount(item) == 0
  }

  function AllItems(apps: seq<App>): seq<StreamItem> {
    if apps == [] then [] else AllItems(apps[..|apps| - 1]) + apps[|apps| - 1].streaming
  }

  // ---- Mentioned paths are the created paths ----

  lemma {:induction false} ListCreates(paths: seq<string>, c: Change, p: string)
    requires p != ""
    ensures New(p) in ListActions(paths, c) <==> p in paths
    ensures Drop(p) !in ListActions(paths, c)
  {
    if paths != [] {
      assert paths == paths[..|paths| - 1] + [paths[|paths| - 1]];
      ListCreates(paths[..|paths| - 1], c, p);
    }
  }

  lemma {:induction false} StorageCreates(paths: seq<string>, inMemory: bool, p: string)
    requires p != ""
    ensures New(p) in StorageActions(paths, inMemory) <==> p in paths
    ensures Drop(p) !in StorageActions(paths, inMemory)
  {
    if paths != [] {
      assert paths == paths[..|paths| - 1] + [paths[|paths| - 1]];
      StorageCreates(paths[..|paths| - 1], inMemory, p);
    }
  }

  lemma {:induction false} CreationsCreated(paths: seq<string>, p: string)
    ensures New(p) in Creations(paths) <==> p in paths
    ensures Drop(p) !in Creations(paths)
  {
    if paths != [] {
      assert paths == paths[..|paths| - 1] + [paths[|paths| - 1]];
      CreationsCreated(paths[..|paths| - 1], p);
    }
  }

  lemma PathCreates(item: StreamItem, q: string, p: string)
    requires p != ""
    ensures New(p) in PathActions(item, q) <==> p == q || (q != "" && p in Dependencies(item))
    ensures Drop(p) !in PathActions(item, q)
  {
    hide Rule, CloseCount, Mode, FileCount, Dependencies, Setting, Pinning, SettingDependencies;
    SettingCreates(q, p);
    DependenciesCreate(q, Dependencies(item), p);
  }

  lemma SettingCreates(q: string, p: string)
    requires p != ""
    ensures forall c :: (New(p) in Setting(q, c) <==> p == q) && Drop(p) !in Setting(q, c)
    ensures forall n :: (New(p) in Pinning(q, n) <==> p == q) && Drop(p) !in Pinning(q, n)
  {
  }

  lemma DependenciesCreate(q: string, paths: seq<string>, p: string)
    requires p != ""
    ensures New(p) in SettingDependencies(q, paths) <==> q != "" && paths != [] && (p in paths || p == q)
    ensures Drop(p) !in SettingDependencies(q, paths)
  {
    hide Creations;
    CreationsCreated(paths, p);
  }

  lemma {:induction false} ItemCreates(item: StreamItem, paths: seq<string>, p: string)
    requires p != ""
    ensures New(p) in ItemActions(item, paths) <==>
      p in paths || (p in Dependencies(item) && exists q | q in paths :: q != "")
    ensures Drop(p) !in ItemActions(item, paths)
  {
    hide PathActions;
    if paths != [] {
      var init, last := paths[..|paths| - 1], paths[|paths| - 1];
      assert paths == init + [last];
      assert last in paths && forall q | q in init :: q in paths;
      ItemCreates(item, init, p);
      PathCreates(item, last, p);
    }
  }

  lemma {:induction false} StreamCreates(items: seq<StreamItem>, p: string)
    requires p != ""
    ensures New(p) in StreamActions(items) <==> exists item | item in items :: ItemMentions(item, p)
    ensures Drop(p) !in StreamActions(items)
  {
    hide ItemActions;
    if items != [] {
      var init, last := items[..|items| - 1], items[|items| - 1];
      assert items == init + [last];
      assert last in items && forall item | item in init :: item in items;
      StreamCreates(init, p);
      ItemCreates(last, last.paths, p);
      assert ItemMentions(last, p) <==> New(p) in ItemActions(last, last.paths);
    }
  }

  lemma {:induction false} GraphCreates(apps: seq<App>, p: string)
    requires p != ""
    ensures New(p) in GraphActions(apps) <==> exists app | app in apps :: AppMentions(app, p)
    ensures Drop(p) !in GraphActions(apps)
  {
    hide AppActions, AppMentions;
    if apps != [] {
      var init, last := apps[..|apps| - 1], apps[|apps| - 1];
      assert apps == init + [last];
      assert last in apps && forall app | app in init :: app in apps;
      GraphCreates(init, p);
      AppCreates(last, p);
    }
  }

  lemma AppCreates(app: App, p: string)
    requires p != ""
    ensures New(p) in AppActions(app) <==> AppMentions(app, p)
    ensures Drop(p) !in AppActions(app)
  {
    hide ListActions, StreamActions, ItemMentions;
    ListCreates(app.inputs, AddConsumer(Strip(app.name)), p);
    ListCreates(app.outputs, AddProducer(Strip(app.name)), p);
    StreamCreates(app.streaming, p);
  }

  lemma DocumentCreates(doc: Document, memoryOnly: bool, p: string)
    requires p != ""
    ensures New(p) in DocumentActions(doc, memoryOnly) <==> Mentions(doc, p)
    ensures Drop(p) !in DocumentActions(doc, memoryOnly)
  {
    hide GraphActions, ListActions, StorageActions, AppMentions;
    GraphCreates(doc.ioGraph, p);
    ListCreates(doc.permanent, SetPermanent(true), p);
    ListCreates(doc.exclude, SetExcluded(true), p);
    StorageCreates(doc.memory, true, p);
    StorageCreates(doc.fileSystem, false, p);
  }

  // ---- The cell of a path over a document's actions ----

  // What a cell holds, or would hold if its path were created now.
  function Base(c: Cell): Entry {
    if c.entry.Some? then c.entry.value else DEFAULT_ENTRY.(inMemory := c.raised)
  }

  function Holding(c: Cell, e: Entry): Cell {
    c.(entry := Some(e))
  }

  lemma CellOne(c: Cell, a: Action, p: string)
    ensures CellRun(c, [a], p) == CellStep(c, a, p)
  {
    hide CellStep;
    assert [a][..0] == [];
  }

  lemma CellSetting(c: Cell, q: string, change: Change, p: string)
    requires p != ""
    ensures CellRun(c, Setting(q, change), p) == if q == p then Holding(c, Apply(change, Base(c))) else c
  {
    hide Apply;
    if q != "" {
      assert Setting(q, change) == [New(q)] + [Edit(q, change)];
      CellRunConcat(c, [New(q)], [Edit(q, change)], p);
      CellOne(c, New(q), p);
      CellOne(CellRun(c, [New(q)], p), Edit(q, change), p);
      hide CellRun;
    }
  }

  lemma CellPinning(c: Cell, q: string, n: int, p: string)
    requires p != "" && q != ""
    ensures CellRun(c, Pinning(q, n), p) ==
      if q == p then Holding(c, Apply(PinChildren(n), Apply(SetKind(false), Base(c)))) else Changed(c, SetKind(false))
  {
    hide Apply;
    var marked := CellRun(c, [New(q), EditAll(SetKind(false))], p);
    assert [New(q), EditAll(SetKind(false))] == [New(q)] + [EditAll(SetKind(false))];
    CellRunConcat(c, [New(q)], [EditAll(SetKind(false))], p);
    CellOne(c, New(q), p);
    CellOne(CellRun(c, [New(q)], p), EditAll(SetKind(false)), p);
    assert Pinning(q, n) == [New(q), EditAll(SetKind(false))] + [Edit(q, PinChildren(n))];
    CellRunConcat(c, [New(q), EditAll(SetKind(false))], [Edit(q, PinChildren(n))], p);
    CellOne(marked, Edit(q, PinChildren(n)), p);
    hide CellRun;
  }

  lemma {:induction false} CellCreations(c: Cell, paths: seq<string>, p: string)
    requires p != ""
    ensures CellRun(c, Creations(paths), p) == if p in paths then Holding(c, Base(c)) else c
  {
    if paths != [] {
      var init, last := paths[..|paths| - 1], paths[|paths| - 1];
      assert paths == init + [last];
      CellCreations(c, init, p);
      CellRunConcat(c, Creations(init), [New(last)], p);
      CellOne(CellRun(c, Creations(init), p), New(last), p);
      hide CellRun;
    }
  }

  lemma CellDependencies(c: Cell, q: string, paths: seq<string>, p: string)
    requires p != ""
    ensures CellRun(c, SettingDependencies(q, paths), p) ==
      if q == "" || paths == [] then c
      else if q == p then Holding(c, Apply(SetDependencies(paths), Base(c)))
      else if p in paths then Holding(c, Base(c)) else c
  {
    hide Apply, CellRun, Creations, Setting;
    if q != "" && paths != [] {
      CellRunConcat(c, Creations(paths), Setting(q, SetDependencies(paths)), p);
      CellCreations(c, paths, p);
      CellSetting(CellRun(c, Creations(paths), p), q, SetDependencies(paths), p);
    } else {
      CellNothing(c, p);
    }
  }

  lemma CellNothing(c: Cell, p: string)
    ensures CellRun(c, [], p) == c
  {
  }

  // The setters of one item on one of its paths.
  lemma PathCell(c: Cell, item: StreamItem, q: string, p: string)
    requires p != ""
    ensures var c' := CellRun(c, PathActions(item, q), p);
      && c'.raised == c.raised
      && (q == p ==> c'.entry == Some(Written(Base(c), item)))
      && (q != p ==> Base(c') in [Base(c), Base(c).(isFile := false)])
      && (q != p && c.entry.None? ==> Base(c') == Base(c))
      && (q != p && FileCount(item) == 0 ==> Base(c') == Base(c))
      && (q != p && q != "" && FileCount(item) != 0 && c.entry.Some? ==> Base(c') == Base(c).(isFile := false))
  {
    hide CellRun, Setting, Pinning, SettingDependencies, Rule, Mode, CloseCount, Dependencies, Apply, Written;
    var n := if CloseCount(item).Some? then CloseCount(item).value else 0;
    var a0 := if FileCount(item) != 0 then Pinning(q, FileCount(item)) else [];
    var a1, a2, a3, a4 := Setting(q, SetKind(item.isName)), Setting(q, SetCommitRule(Rule(item))),
      Setting(q, SetFireRule(Mode(item))), Setting(q, SetCloseCount(n));
    var a5 := SettingDependencies(q, Dependencies(item));
    CellRunConcat(c, a0 + a1 + a2 + a3 + a4, a5, p);
    CellRunConcat(c, a0 + a1 + a2 + a3, a4, p);
    CellRunConcat(c, a0 + a1 + a2, a3, p);
    CellRunConcat(c, a0 + a1, a2, p);
    CellRunConcat(c, a0, a1, p);
    var c0 := CellRun(c, a0, p);
    PinCell(c, item, q, p);
    CellSetting(c0, q, SetKind(item.isName), p);
    var c1 := CellRun(c0, a1, p);
    CellSetting(c1, q, SetCommitRule(Rule(item)), p);
    var c2 := CellRun(c1, a2, p);
    CellSetting(c2, q, SetFireRule(Mode(item)), p);
    var c3 := CellRun(c2, a3, p);
    CellSetting(c3, q, SetCloseCount(n), p);
    var c4 := CellRun(c3, a4, p);
    CellDependencies(c4, q, Dependencies(item), p);
    if q == p {
      WrittenBySetters(Base(c), Base(c0), item);
    } else {
      assert Apply(SetKind(false), Base(c)) == Base(c).(isFile := false) by {
        MarkedKind(Base(c));
      }
    }
  }

  lemma MarkedKind(e: Entry)
    ensures Apply(SetKind(false), e) == e.(isFile := false)
  {
  }

  lemma WrittenBySetters(e: Entry, pinned: Entry, item: StreamItem)
    requires pinned == if FileCount(item) == 0 then e
                       else e.(isFile := false, childrenCount := FileCount(item), autoCount := false)
    ensures var n := if CloseCount(item).Some? then CloseCount(item).value else 0;
      var e4 := Apply(SetCloseCount(n), Apply(SetFireRule(Mode(item)), Apply(SetCommitRule(Rule(item)),
        Apply(SetKind(item.isName), pinned))));
      Written(e, item) == if Dependencies(item) == [] then e4 else Apply(SetDependencies(Dependencies(item)), e4)
  {
    hide Rule, Mode, CloseCount, Dependencies, FileCount;
  }

  lemma PinCell(c: Cell, item: StreamItem, q: string, p: string)
    requires p != ""
    ensures var c0 := CellRun(c, if FileCount(item) != 0 then Pinning(q, FileCount(item)) else [], p);
      && c0.raised == c.raised
      && (FileCount(item) == 0 ==> c0 == c)
      && (q != p ==> c0 == c || c0 == Changed(c, SetKind(false)))
      && (q != p && q != "" && FileCount(item) != 0 ==> c0 == Changed(c, SetKind(false)))
      && (q == p && FileCount(item) != 0 ==>
            c0 == Holding(c, Base(c).(isFile := false, childrenCount := FileCount(item), autoCount := false)))
  {
    CellNothing(c, p);
    hide CellRun;
    if FileCount(item) != 0 && q != "" {
      CellPinning(c, q, FileCount(item), p);
    }
  }

  // The entry equals the description, except that fixing file counts may have made it a directory.
  predicate UpToKind(e: Entry, described: Entry, exact: bool) {
    && e.(isFile := described.isFile) == described
    && (e.isFile ==> described.isFile)
    && (exact ==> e == described)
  }

  lemma WrittenUpToKind(e: Entry, w: Entry, item: StreamItem)
    requires UpToKind(e, w, false)
    ensures UpToKind(Written(e, item), Written(w, item), true)
  {
    hide Rule, Mode, CloseCount, Dependencies, FileCount;
  }

  lemma PathKind(c: Cell, item: StreamItem, q: string, p: string, w: Entry, exact: bool)
    requires p != "" && UpToKind(Base(c), w, exact)
    ensures var c' := CellRun(c, PathActions(item, q), p);
      && c'.raised == c.raised
      && UpToKind(Base(c'), if p == q then Written(w, item) else w, exact && FileCount(item) == 0)
  {
    hide CellRun, PathActions, Written, FileCount;
    PathCell(c, item, q, p);
    WrittenUpToKind(Base(c), w, item);
  }

  lemma {:induction false} ItemCell(c: Cell, item: StreamItem, paths: seq<string>, p: string, w: Entry, exact: bool)
    requires p != "" && UpToKind(Base(c), w, exact)
    ensures var c' := CellRun(c, ItemActions(item, paths), p);
      && c'.raised == c.raised
      && UpToKind(Base(c'), if p in paths then Written(w, item) else w, exact && FileCount(item) == 0)
  {
    hide PathActions, Written, FileCount, Base, UpToKind;
    if paths == [] {
      WeakerUpToKind(Base(c), w, exact, exact && FileCount(item) == 0);
    } else {
      var init, last := paths[..|paths| - 1], paths[|paths| - 1];
      assert paths == init + [last];
      ItemCell(c, item, init, p, w, exact);
      CellRunConcat(c, ItemActions(item, init), PathActions(item, last), p);
      WrittenTwice(w, item);
      PathKind(CellRun(c, ItemActions(item, init), p), item, last, p,
        if p in init then Written(w, item) else w, exact && FileCount(item) == 0);
    }
  }

  lemma WrittenTwice(w: Entry, item: StreamItem)
    ensures Written(Written(w, item), item) == Written(w, item)
  {
    hide Rule, Mode, CloseCount, Dependencies, FileCount;
  }

  lemma {:induction false} StreamCell(c: Cell, items: seq<StreamItem>, p: string, w: Entry, exact: bool)
    requires p != "" && UpToKind(Base(c), w, exact)
    ensures var c' := CellRun(c, StreamActions(items), p);
      && c'.raised == c.raised
      && UpToKind(Base(c'), StreamWritten(w, items, p), exact && NoPins(items))
  {
    hide ItemActions, Written, FileCount, Base, UpToKind;
    if items != [] {
      var init, last := items[..|items| - 1], items[|items| - 1];
      assert items == init + [last];
      StreamCell(c, init, p, w, exact);
      CellRunConcat(c, StreamActions(init), ItemActions(last, last.paths), p);
      assert NoPins(items) <==> NoPins(init) && FileCount(last) == 0 by {
        assert last in items && forall item | item in init :: item in items;
      }
      ItemCell(CellRun(c, StreamActions(init), p), last, last.paths, p, StreamWritten(w, init, p), exact && NoPins(init));
    }
  }

  lemma ListedCell(c: Cell, q: string, change: Change, p: string)
    requires p != ""
    ensures CellRun(c, [New(q)] + Setting(q, change), p) == if q == p then Holding(c, Apply(change, Base(c))) else c
  {
    hide Apply;
    CellRunConcat(c, [New(q)], Setting(q, change), p);
    CellOne(c, New(q), p);
    CellSetting(CellRun(c, [New(q)], p), q, change, p);
    hide CellRun, Setting;
  }

  // Changes that come to the same when made twice.
  predicate Idempotent(change: Change) {
    change.AddConsumer? || change.AddProducer? || change.SetPermanent? || change.SetExcluded? || change.SetInMemory?
  }

  lemma AppliedTwice(change: Change, e: Entry)
    requires Idempotent(change)
    ensures Apply(change, Apply(change, e)) == Apply(change, e)
  {
  }

  lemma {:induction false} ListCell(c: Cell, paths: seq<string>, change: Change, p: string)
    requires p != "" && Idempotent(change)
    ensures CellRun(c, ListActions(paths, change), p) ==
      if p in paths then Holding(c, Apply(change, Base(c))) else c
  {
    hide Apply;
    if paths != [] {
      var init, last := paths[..|paths| - 1], paths[|paths| - 1];
      assert paths == init + [last];
      ListCell(c, init, change, p);
      CellRunConcat(c, ListActions(init, change), [New(last)] + Setting(last, change), p);
      ListedCell(CellRun(c, ListActions(init, change), p), last, change, p);
      AppliedTwice(change, Base(c));
      hide CellRun, Setting;
    }
  }

  lemma {:induction false} StorageCell(c: Cell, paths: seq<string>, inMemory: bool, p: string)
    requires p != ""
    ensures CellRun(c, StorageActions(paths, inMemory), p) ==
      if p in paths then Holding(c, Apply(SetInMemory(inMemory), Base(c))) else c
  {
    hide Apply;
    if paths != [] {
      var init, last := paths[..|paths| - 1], paths[|paths| - 1];
      assert paths == init + [last];
      StorageCell(c, init, inMemory, p);
      CellRunConcat(c, StorageActions(init, inMemory), Setting(last, SetInMemory(inMemory)), p);
      CellSetting(CellRun(c, StorageActions(init, inMemory), p), last, SetInMemory(inMemory), p);
      AppliedTwice(SetInMemory(inMemory), Base(c));
      hide CellRun, Setting;
    }
  }

  lemma AddedUpToKind(e: Entry, w: Entry, exact: bool, change: Change)
    requires UpToKind(e, w, exact) && Idempotent(change)
    ensures UpToKind(Apply(change, e), Apply(change, w), exact)
  {
  }

  lemma AppCell(c: Cell, app: App, p: string, w: Entry, exact: bool)
    requires p != "" && UpToKind(Base(c), w, exact)
    ensures var c' := CellRun(c, AppActions(app), p);
      && c'.raised == c.raised
      && UpToKind(Base(c'), AppWritten(w, app, p), exact && NoPins(app.streaming))
  {
    hide CellRun, ListActions, StreamActions, StreamWritten, Apply, UpToKind, NoPins;
    var consume, produce := AddConsumer(Strip(app.name)), AddProducer(Strip(app.name));
    var inputs, outputs := ListActions(app.inputs, consume), ListActions(app.outputs, produce);
    CellRunConcat(c, inputs + outputs, StreamActions(app.streaming), p);
    CellRunConcat(c, inputs, outputs, p);
    ListCell(c, app.inputs, consume, p);
    var c1 := CellRun(c, inputs, p);
    AddedUpToKind(Base(c), w, exact, consume);
    var w1 := if p in app.inputs then Apply(consume, w) else w;
    ListCell(c1, app.outputs, produce, p);
    var c2 := CellRun(c1, outputs, p);
    AddedUpToKind(Base(c1), w1, exact, produce);
    var w2 := if p in app.outputs then Apply(produce, w1) else w1;
    StreamCell(c2, app.streaming, p, w2, exact);
  }

  lemma {:induction false} GraphCell(apps: seq<App>, p: string)
    requires p != ""
    ensures var c' := CellRun(EMPTY_CELL, GraphActions(apps), p);
      !c'.raised && UpToKind(Base(c'), GraphWritten(apps, p), NoPins(AllItems(apps)))
  {
    hide AppActions, AppWritten, Base;
    if apps == [] {
      EmptyBase();
    } else {
      var init, last := apps[..|apps| - 1], apps[|apps| - 1];
      GraphCell(init, p);
      CellRunConcat(EMPTY_CELL, GraphActions(init), AppActions(last), p);
      hide UpToKind, FileCount;
      assert NoPins(AllItems(apps)) ==> NoPins(AllItems(init)) && NoPins(last.streaming) by {
        assert forall item | item in AllItems(init) || item in last.streaming :: item in AllItems(apps);
      }
      AppCell(CellRun(EMPTY_CELL, GraphActions(init), p), last, p, GraphWritten(init, p), NoPins(AllItems(init)));
      hide CellRun;
      var e, w := Base(CellRun(EMPTY_CELL, GraphActions(apps), p)), GraphWritten(apps, p);
      WeakerUpToKind(e, w, NoPins(AllItems(init)) && NoPins(last.streaming), NoPins(AllItems(apps)));
    }
  }

  lemma EmptyBase()
    ensures Base(EMPTY_CELL) == DEFAULT_ENTRY
  {
  }

  lemma WeakerUpToKind(e: Entry, w: Entry, exact: bool, weaker: bool)
    requires UpToKind(e, w, exact) && (weaker ==> exact)
    ensures UpToKind(e, w, weaker)
  {
  }

  lemma TailCell(c: Cell, doc: Document, memoryOnly: bool, p: string)
    requires p != "" && !c.raised
    ensures var c' := CellRun(c, TailActions(doc, memoryOnly), p);
      Base(c') == Base(c).(
        permanent := p in doc.permanent || Base(c).permanent,
        excluded := p in doc.exclude || Base(c).excluded,
        inMemory := memoryOnly || if p in doc.fileSystem then false else p in doc.memory || Base(c).inMemory)
  {
    hide CellRun, ListActions, StorageActions;
    var a1, a2 := ListActions(doc.permanent, SetPermanent(true)), ListActions(doc.exclude, SetExcluded(true));
    var a3, a4 := StorageActions(doc.memory, true), StorageActions(doc.fileSystem, false);
    var a5 := if memoryOnly then [Raise, EditAll(SetInMemory(true))] else [];
    CellRunConcat(c, a1 + a2 + a3 + a4, a5, p);
    CellRunConcat(c, a1 + a2 + a3, a4, p);
    CellRunConcat(c, a1 + a2, a3, p);
    CellRunConcat(c, a1, a2, p);
    ListCell(c, doc.permanent, SetPermanent(true), p);
    var c1 := CellRun(c, a1, p);
    ListCell(c1, doc.exclude, SetExcluded(true), p);
    var c2 := CellRun(c1, a2, p);
    StorageCell(c2, doc.memory, true, p);
    var c3 := CellRun(c2, a3, p);
    StorageCell(c3, doc.fileSystem, false, p);
    MemoryOnlyCell(CellRun(c3, a4, p), memoryOnly, p);
  }

  lemma MemoryOnlyCell(c: Cell, memoryOnly: bool, p: string)
    ensures var c' := CellRun(c, if memoryOnly then [Raise, EditAll(SetInMemory(true))] else [], p);
      Base(c') == if memoryOnly then Base(c).(inMemory := true) else Base(c)
  {
    if memoryOnly {
      assert [Raise, EditAll(SetInMemory(true))] == [Raise] + [EditAll(SetInMemory(true))];
      CellRunConcat(c, [Raise], [EditAll(SetInMemory(true))], p);
      CellOne(c, Raise, p);
      CellOne(CellRun(c, [Raise], p), EditAll(SetInMemory(true)), p);
      hide CellRun;
    }
  }

  // ---- Parsing computes the meaning ----

  ghost predicate Matches(e: Entry, described: Entry, childless: bool, exact: bool) {
    && e.(isFile := described.isFile, childrenCount := described.childrenCount) == described
    && (e.isFile ==> described.isFile)
    && (childless || !described.autoCount ==> e.childrenCount == described.childrenCount)
    && (childless && exact ==> e == described)
  }

  // When no mentioned path matches another, the engine parsed from a document holds exactly the
  // mentioned paths, each with the entry described, up to its kind and automatic count where file
  // counts are fixed or children are mentioned; Shapes tells these two.
  lemma {:induction false} ParsedRules(doc: Document, memoryOnly: bool, s: Store, p: string)
    requires Run(EMPTY_STORE, DocumentActions(doc, memoryOnly), s) && Separated(doc) && p != ""
    ensures p in s.entries <==> Mentions(doc, p)
    ensures p in s.entries ==>
      Matches(s.entries[p], Described(doc, memoryOnly, p), NoChildMentioned(doc, p), NoPins(AllItems(doc.ioGraph)))
  {
    hide Run, DocumentActions, Mentions, Match, Parent, CellRun, Described;
    var acts := DocumentActions(doc, memoryOnly);
    ParsedKeys(doc, memoryOnly, s, p);
    SeparatedActions(doc, memoryOnly, p);
    RunProjects(acts, s, p);
    DocumentCell(doc, memoryOnly, p);
    if p in s.entries {
      var cell := CellRun(EMPTY_CELL, acts, p).entry.value;
      MatchesThrough(s.entries[p], cell, Described(doc, memoryOnly, p), Childless(acts, p), NoPins(AllItems(doc.ioGraph)));
    }
  }

  lemma MatchesThrough(e: Entry, cell: Entry, described: Entry, childless: bool, exact: bool)
    requires Agrees(e, cell, childless) && UpToKind(cell, described, exact)
    ensures Matches(e, described, childless, exact)
  {
  }

  // The keys of the parsed engine are the mentioned paths, matching or not.
  lemma {:induction false} ParsedKeys(doc: Document, memoryOnly: bool, s: Store, p: string)
    requires Run(EMPTY_STORE, DocumentActions(doc, memoryOnly), s)
    ensures p in s.entries <==> p != "" && Mentions(doc, p)
  {
    hide Run, DocumentActions, Mentions;
    RunKeys(DocumentActions(doc, memoryOnly), s);
    if p != "" {
      DocumentCreates(doc, memoryOnly, p);
    }
  }

  lemma SeparatedActions(doc: Document, memoryOnly: bool, p: string)
    ensures Separated(doc) ==> Isolated(DocumentActions(doc, memoryOnly))
    ensures NoChildMentioned(doc, p) <==> Childless(DocumentActions(doc, memoryOnly), p)
  {
    hide DocumentActions, Mentions, Match, Parent;
    forall q | q != ""
      ensures New(q) in DocumentActions(doc, memoryOnly) <==> Mentions(doc, q)
    {
      DocumentCreates(doc, memoryOnly, q);
    }
  }

  lemma DocumentCell(doc: Document, memoryOnly: bool, p: string)
    requires p != ""
    ensures UpToKind(Base(CellRun(EMPTY_CELL, DocumentActions(doc, memoryOnly), p)),
      Described(doc, memoryOnly, p), NoPins(AllItems(doc.ioGraph)))
  {
    hide CellRun, GraphActions, TailActions, GraphWritten, NoPins, AllItems;
    CellRunConcat(EMPTY_CELL, GraphActions(doc.ioGraph), TailActions(doc, memoryOnly), p);
    GraphCell(doc.ioGraph, p);
    TailCell(CellRun(EMPTY_CELL, GraphActions(doc.ioGraph), p), doc, memoryOnly, p);
    FlagsUnwritten(doc.ioGraph, p);
  }

  lemma {:induction false} FlagsUnwritten(apps: seq<App>, p: string)
    ensures var w := GraphWritten(apps, p);
      !w.permanent && !w.excluded && !w.inMemory
  {
    hide StreamWritten;
    if apps != [] {
      FlagsUnwritten(apps[..|apps| - 1], p);
      var last := apps[|apps| - 1];
      var w := GraphWritten(apps[..|apps| - 1], p);
      var w1 := if p in last.inputs then Apply(AddConsumer(Strip(last.name)), w) else w;
      var w2 := if p in last.outputs then Apply(AddProducer(Strip(last.name)), w1) else w1;
      StreamKeeps(w2, last.streaming, p);
    }
  }

  lemma {:induction false} StreamKeeps(e: Entry, items: seq<StreamItem>, p: string)
    ensures var w := StreamWritten(e, items, p);
      && w.permanent == e.permanent && w.excluded == e.excluded && w.inMemory == e.inMemory
      && w.producers == e.producers && w.consumers == e.consumers
  {
    hide Rule, Mode, CloseCount, Dependencies, FileCount;
    if items != [] {
      StreamKeeps(e, items[..|items| - 1], p);
    }
  }

  // ---- Reading the described entry off the document ----

  // The last item naming p, the last non-empty on_file dependencies and the last fixed file count.
  function LastItem(items: seq<StreamItem>, p: string): Option<StreamItem> {
    if items == [] then None
    else if p in items[|items| - 1].paths then Some(items[|items| - 1])
    else LastItem(items[..|items| - 1], p)
  }

  function LastDependencies(items: seq<StreamItem>, p: string): seq<string> {
    if items == [] then []
    else if p in items[|items| - 1].paths && Dependencies(items[|items| - 1]) != [] then Dependencies(items[|items| - 1])
    else LastDependencies(items[..|items| - 1], p)
  }

  function LastFileCount(items: seq<StreamItem>, p: string): Option<int> {
    if items == [] then None
    else if p in items[|items| - 1].paths && FileCount(items[|items| - 1]) != 0 then Some(FileCount(items[|items| - 1]))
    else LastFileCount(items[..|items| - 1], p)
  }

  predicate RulesRead(e: Entry, items: seq<StreamItem>, p: string) {
    && (match LastItem(items, p)
        case None => e.commitRule == ON_TERMINATION && e.fireRule == UPDATE && e.closeCount == 0 && e.isFile
        case Some(item) =>
          && e.commitRule == Rule(item) && e.fireRule == Mode(item) && e.isFile == item.isName
          && e.closeCount == if CloseCount(item).Some? then CloseCount(item).value else 0)
    && e.fileDependencies == LastDependencies(items, p)
    && (match LastFileCount(items, p)
        case None => e.childrenCount == 0 && e.autoCount
        case Some(n) => e.childrenCount == n && !e.autoCount)
  }

  lemma ItemRulesRead(e: Entry, items: seq<StreamItem>, item: StreamItem, p: string)
    requires RulesRead(e, items, p)
    ensures RulesRead(if p in item.paths then Written(e, item) else e, items + [item], p)
  {
    hide Rule, Mode, CloseCount, Dependencies, FileCount, Written;
    assert (items + [item])[..|items|] == items;
    WrittenFields(e, item);
  }

  lemma WrittenFields(e: Entry, item: StreamItem)
    ensures var w := Written(e, item);
      && w.commitRule == Rule(item) && w.fireRule == Mode(item) && w.isFile == item.isName
      && w.closeCount == (if CloseCount(item).Some? then CloseCount(item).value else 0)
      && w.fileDependencies == (if Dependencies(item) != [] then Dependencies(item) else e.fileDependencies)
      && (FileCount(item) == 0 ==> w.childrenCount == e.childrenCount && w.autoCount == e.autoCount)
      && (FileCount(item) != 0 ==> w.childrenCount == FileCount(item) && !w.autoCount)
  {
    hide Rule, Mode, CloseCount, Dependencies, FileCount;
  }

  lemma {:induction false} StreamRulesRead(e: Entry, items: seq<StreamItem>, more: seq<StreamItem>, p: string)
    requires RulesRead(e, items, p)
    ensures RulesRead(StreamWritten(e, more, p), items + more, p)
  {
    hide RulesRead, Written;
    if more == [] {
      assert items + more == items;
    } else {
      var init, last := more[..|more| - 1], more[|more| - 1];
      StreamRulesRead(e, items, init, p);
      ItemRulesRead(StreamWritten(e, init, p), items + init, last, p);
      assert items + more == items + init + [last];
    }
  }

  lemma {:induction false} GraphRulesRead(apps: seq<App>, p: string)
    ensures RulesRead(GraphWritten(apps, p), AllItems(apps), p)
  {
    hide StreamWritten, LastItem, LastDependencies, LastFileCount;
    if apps == [] {
      NoItems(p);
    } else {
      var init, last := apps[..|apps| - 1], apps[|apps| - 1];
      GraphRulesRead(init, p);
      var w := GraphWritten(init, p);
      var w1 := if p in last.inputs then Apply(AddConsumer(Strip(last.name)), w) else w;
      var w2 := if p in last.outputs then Apply(AddProducer(Strip(last.name)), w1) else w1;
      StreamRulesRead(w2, AllItems(init), last.streaming, p);
    }
  }

  lemma NoItems(p: string)
    ensures LastItem([], p) == None && LastDependencies([], p) == [] && LastFileCount([], p) == None
  {
  }

  ghost predicate Listing(apps: seq<App>, producing: bool, p: string, a: string) {
    exists app | app in apps :: Strip(app.name) == a && p in (if producing then app.outputs else app.inputs)
  }

  ghost predicate RolesRead(e: Entry, apps: seq<App>, p: string) {
    && NoDuplicates(e.producers) && NoDuplicates(e.consumers)
    && (forall a :: a in e.producers <==> Listing(apps, true, p, a))
    && (forall a :: a in e.consumers <==> Listing(apps, false, p, a))
  }

  lemma {:induction false} GraphRolesRead(apps: seq<App>, p: string)
    ensures RolesRead(GraphWritten(apps, p), apps, p)
  {
    hide StreamWritten;
    if apps != [] {
      var init, last := apps[..|apps| - 1], apps[|apps| - 1];
      GraphRolesRead(init, p);
      AppRolesRead(GraphWritten(init, p), init, last, p);
      assert apps == init + [last];
    }
  }

  lemma AppRolesRead(e: Entry, apps: seq<App>, app: App, p: string)
    requires RolesRead(e, apps, p)
    ensures RolesRead(AppWritten(e, app, p), apps + [app], p)
  {
    var e1 := if p in app.inputs then Apply(AddConsumer(Strip(app.name)), e) else e;
    var e2 := if p in app.outputs then Apply(AddProducer(Strip(app.name)), e1) else e1;
    StreamKeeps(e2, app.streaming, p);
    hide StreamWritten, Strip;
    assert app in apps + [app] && forall x | x in apps :: x in apps + [app];
    forall producing, a
      ensures Listing(apps + [app], producing, p, a) <==>
        Listing(apps, producing, p, a) || (Strip(app.name) == a && p in (if producing then app.outputs else app.inputs))
    {
    }
  }

  // The same on the items' own fields.
  function ListedFiles(item: StreamItem): seq<string> {
    if item.committed.Some? && (item.committed.value == "on_file" || "on_file:" <= item.committed.value) && item.fileDeps.Some?
    then item.fileDeps.value
    else []
  }

  function LastListed(items: seq<StreamItem>, p: string): seq<string> {
    if items == [] then []
    else
      var last := items[|items| - 1];
      if p in last.paths && ListedFiles(last) != [] then ListedFiles(last) else LastListed(items[..|items| - 1], p)
  }

  function LastFixed(items: seq<StreamItem>, p: string): Option<int> {
    if items == [] then None
    else
      var last := items[|items| - 1];
      if p in last.paths && !last.isName && last.nFiles.Some? && last.nFiles.value != 0 then last.nFiles
      else LastFixed(items[..|items| - 1], p)
  }

  ghost predicate ItemTold(e: Entry, item: StreamItem) {
    && e.isFile == item.isName
    && e.fireRule == (if item.mode.None? then "no_update" else item.mode.value)
    && (item.committed.None? ==> e.commitRule == "on_termination" && e.closeCount == 0)
    && (forall c | item.committed == Some(c) && ':' !in c :: e.commitRule == c && e.closeCount == 0)
    && (forall rule, text | item.committed == Some(rule + (":" + text)) && ':' !in rule ::
          && e.commitRule == rule
          && e.closeCount == match Stoi(text) case Some(n) => n case None => 0)
  }

  ghost predicate RulesTold(e: Entry, items: seq<StreamItem>, p: string) {
    && (match LastItem(items, p)
        case None => e.commitRule == "on_termination" && e.fireRule == "update" && e.closeCount == 0 && e.isFile
        case Some(item) => ItemTold(e, item))
    && e.fileDependencies == LastListed(items, p)
    && (match LastFixed(items, p)
        case None => e.childrenCount == 0 && e.autoCount
        case Some(n) => e.childrenCount == n && !e.autoCount)
  }

  lemma ListedAreDependencies(item: StreamItem)
    ensures ListedFiles(item) == Dependencies(item)
    ensures FileCount(item) == if !item.isName && item.nFiles.Some? then item.nFiles.value else 0
  {
    hide Before, Stoi;
    ItemFieldsRead(item);
    if item.committed.Some? {
      var c := item.committed.value;
      BeforeWhole(c, ':');
      if "on_file:" <= c {
        assert c == "on_file" + (":" + c[8..]);
        PlainRule(ON_FILE);
        BeforeSeparator(ON_FILE, ':', ":" + c[8..]);
      }
      PlainRule(ON_FILE);
    }
  }

  lemma {:induction false} LastsAgree(items: seq<StreamItem>, p: string)
    ensures LastListed(items, p) == LastDependencies(items, p) && LastFixed(items, p) == LastFileCount(items, p)
  {
    hide ListedFiles, Dependencies, FileCount;
    if items != [] {
      LastsAgree(items[..|items| - 1], p);
      ListedAreDependencies(items[|items| - 1]);
    }
  }

  lemma RulesReadTold(e: Entry, items: seq<StreamItem>, p: string)
    requires RulesRead(e, items, p)
    ensures RulesTold(e, items, p)
  {
    hide Rule, Mode, CloseCount, LastItem, LastDependencies, LastFileCount, LastListed, LastFixed, Stoi;
    LastsAgree(items, p);
    if LastItem(items, p).Some? {
      ItemFieldsRead(LastItem(items, p).value);
    }
  }

  lemma FlagsUntold(doc: Document, memoryOnly: bool, p: string)
    ensures var items, w, d := AllItems(doc.ioGraph), GraphWritten(doc.ioGraph, p), Described(doc, memoryOnly, p);
      (RulesRead(w, items, p) ==> RulesRead(d, items, p)) && (RulesTold(w, items, p) ==> RulesTold(d, items, p))
  {
    hide GraphWritten, AllItems, LastItem, LastDependencies, LastFileCount, LastListed, LastFixed;
  }

  // The described entry, field by field: producers and consumers are exactly the (stripped) names
  // of the applications listing p, each once; rule, mode, close count and kind come from the last
  // item naming p; dependencies from the last item naming p with a non-empty on_file list; a fixed
  // count from the last item naming p with one; in memory iff listed there and not under fs, or
  // everything is.
  lemma DescribedReads(doc: Document, memoryOnly: bool, p: string)
    ensures var d := Described(doc, memoryOnly, p);
      && RolesRead(d, doc.ioGraph, p)
      && RulesRead(d, AllItems(doc.ioGraph), p)
      && RulesTold(d, AllItems(doc.ioGraph), p)
      && (d.permanent <==> p in doc.permanent)
      && (d.excluded <==> p in doc.exclude)
      && (d.inMemory <==> memoryOnly || (p in doc.memory && p !in doc.fileSystem))
  {
    hide GraphWritten, AllItems, RulesRead, RulesTold;
    GraphRolesRead(doc.ioGraph, p);
    GraphRulesRead(doc.ioGraph, p);
    RulesReadTold(GraphWritten(doc.ioGraph, p), AllItems(doc.ioGraph), p);
    FlagsUntold(doc, memoryOnly, p);
  }
}
