// parse_v1 on an already loaded document: every loop of the parser over one engine, proved to run
// exactly the document's actions.
module Parser {
  import opened Text
  import opened Entries
  import opened Store
  import opened Documents
  import opened Meaning
  import opened Shapes
  import opened Engines

  datatype ParseResult = Parsed(engine: Engine) | SchemaError | CountOutOfRange

  method ParsePath(engine: Engine, item: StreamItem, path: string, closeCount: int)
    requires ItemSchema(item) && CloseCount(item) == Some(closeCount)
    modifies engine`entries
    ensures Run(old(engine.State()), PathActions(item, path), engine.State())
  {
    ItemReads(item);
    hide Created, Run, Updated, Pinned;
    ghost var s := engine.State();
    ghost var acts: seq<Action> := [];
    RunNothing(s);
    if FileCount(item) != 0 {
      engine.SetDirectoryFileCount(path, FileCount(item));
      PinnedRuns(s, path, FileCount(item), engine.State());
      acts := Pinning(path, FileCount(item));
    }
    ghost var t := engine.State();
    if item.isName {
      engine.SetFile(path);
    } else {
      engine.SetDirectory(path);
    }
    acts := Then(s, acts, t, path, SetKind(item.isName), engine.State());
    t := engine.State();
    var _ := engine.SetCommitRule(path, Rule(item));
    acts := Then(s, acts, t, path, SetCommitRule(Rule(item)), engine.State());
    t := engine.State();
    var _ := engine.SetFireRule(path, Mode(item));
    acts := Then(s, acts, t, path, SetFireRule(Mode(item)), engine.State());
    t := engine.State();
    engine.SetCommitedCloseNumber(path, closeCount);
    acts := Then(s, acts, t, path, SetCloseCount(closeCount), engine.State());
    t := engine.State();
    engine.SetFileDeps(path, Dependencies(item));
    RunConcat(s, acts, t, SettingDependencies(path, Dependencies(item)), engine.State());
  }

  lemma RunNothing(s: Store)
    ensures Run(s, [], s)
  {
  }

  // Appends one setter to a run.
  lemma Then(s: Store, acts: seq<Action>, t: Store, p: string, c: Change, s': Store) returns (all: seq<Action>)
    requires Run(s, acts, t) && Updated(t, p, c, s')
    ensures all == acts + Setting(p, c) && Run(s, all, s')
  {
    hide Run, Updated;
    UpdatedRuns(t, p, c, s');
    RunConcat(s, acts, t, Setting(p, c), s');
    all := acts + Setting(p, c);
  }

  method ParseItem(engine: Engine, item: StreamItem) returns (ok: bool)
    requires ItemSchema(item)
    modifies engine`entries
    ensures ok == CloseCount(item).Some?
    ensures ok ==> Run(old(engine.State()), ItemActions(item, item.paths), engine.State())
  {
    hide Run, PathActions;
    if CloseCount(item).None? {
      return false;
    }
    ghost var s := engine.State();
    RunNothing(s);
    for i := 0 to |item.paths|
      invariant Run(s, ItemActions(item, item.paths[..i]), engine.State())
    {
      ghost var t := engine.State();
      ParsePath(engine, item, item.paths[i], CloseCount(item).value);
      RunConcat(s, ItemActions(item, item.paths[..i]), t, PathActions(item, item.paths[i]), engine.State());
      assert item.paths[..i + 1][..i] == item.paths[..i];
    }
    assert item.paths[..|item.paths|] == item.paths;
    ok := true;
  }

  method ParseInputs(engine: Engine, paths: seq<string>, appName: string) returns (name: string)
    modifies engine`entries
    ensures Run(old(engine.State()), ListActions(paths, AddConsumer(Strip(appName))), engine.State())
    ensures Strip(name) == Strip(appName)
  {
    hide Run, Created, Updated, Setting;
    ghost var s := engine.State();
    RunNothing(s);
    name := appName;
    StripFixpoint(appName);
    for i := 0 to |paths|
      invariant Strip(name) == Strip(appName)
      invariant Run(s, ListActions(paths[..i], AddConsumer(Strip(appName))), engine.State())
    {
      ghost var t := engine.State();
      engine.NewFile(paths[i]);
      ghost var u := engine.State();
      name := engine.AddConsumer(paths[i], name);
      Listed(s, paths, i, AddConsumer(Strip(appName)), t, u, engine.State());
    }
    assert paths[..|paths|] == paths;
  }

  method ParseOutputs(engine: Engine, paths: seq<string>, appName: string) returns (name: string)
    modifies engine`entries
    ensures Run(old(engine.State()), ListActions(paths, AddProducer(Strip(appName))), engine.State())
    ensures Strip(name) == Strip(appName)
  {
    hide Run, Created, Updated, Setting;
    ghost var s := engine.State();
    RunNothing(s);
    name := appName;
    StripFixpoint(appName);
    for i := 0 to |paths|
      invariant Strip(name) == Strip(appName)
      invariant Run(s, ListActions(paths[..i], AddProducer(Strip(appName))), engine.State())
    {
      ghost var t := engine.State();
      engine.NewFile(paths[i]);
      ghost var u := engine.State();
      name := engine.AddProducer(paths[i], name);
      Listed(s, paths, i, AddProducer(Strip(appName)), t, u, engine.State());
    }
    assert paths[..|paths|] == paths;
  }

  method ParseStreaming(engine: Engine, items: seq<StreamItem>) returns (ok: bool)
    requires forall item | item in items :: ItemSchema(item)
    modifies engine`entries
    ensures ok == forall item | item in items :: CloseCount(item).Some?
    ensures ok ==> Run(old(engine.State()), StreamActions(items), engine.State())
  {
    hide Run, ItemActions, CloseCount, ItemSchema;
    ghost var s := engine.State();
    RunNothing(s);
    for i := 0 to |items|
      invariant forall item | item in items[..i] :: CloseCount(item).Some?
      invariant Run(s, StreamActions(items[..i]), engine.State())
    {
      ghost var t := engine.State();
      ok := ParseItem(engine, items[i]);
      if !ok {
        return;
      }
      RunConcat(s, StreamActions(items[..i]), t, ItemActions(items[i], items[i].paths), engine.State());
      assert items[..i + 1][..i] == items[..i];
    }
    assert items[..|items|] == items;
    ok := true;
  }

  method ParseApp(engine: Engine, app: App) returns (ok: bool)
    requires AppSchema(app)
    modifies engine`entries
    ensures ok == AppCountsFit(app)
    ensures ok ==> Run(old(engine.State()), AppActions(app), engine.State())
  {
    hide Run, StreamActions, ListActions, CloseCount, ItemSchema;
    ghost var s := engine.State();
    var name := ParseInputs(engine, app.inputs, app.name);
    ghost var t, acts := engine.State(), ListActions(app.inputs, AddConsumer(Strip(app.name)));
    name := ParseOutputs(engine, app.outputs, name);
    RunConcat(s, acts, t, ListActions(app.outputs, AddProducer(Strip(app.name))), engine.State());
    t, acts := engine.State(), acts + ListActions(app.outputs, AddProducer(Strip(app.name)));
    ok := ParseStreaming(engine, app.streaming);
    if ok {
      RunConcat(s, acts, t, StreamActions(app.streaming), engine.State());
    }
  }

  // One more listed path, created and then changed.
  lemma Listed(s: Store, paths: seq<string>, i: nat, c: Change, t: Store, u: Store, s': Store)
    requires i < |paths|
    requires Run(s, ListActions(paths[..i], c), t) && Created(t, paths[i], u) && Updated(u, paths[i], c, s')
    ensures Run(s, ListActions(paths[..i + 1], c), s')
  {
    hide Run, Created, Updated, Setting;
    RunOne(t, New(paths[i]), u);
    UpdatedRuns(u, paths[i], c, s');
    RunConcat(t, [New(paths[i])], u, Setting(paths[i], c), s');
    RunConcat(s, ListActions(paths[..i], c), t, [New(paths[i])] + Setting(paths[i], c), s');
    assert paths[..i + 1][..i] == paths[..i];
  }

  method ParsePermanent(engine: Engine, paths: seq<string>)
    modifies engine`entries
    ensures Run(old(engine.State()), ListActions(paths, SetPermanent(true)), engine.State())
  {
    hide Run, Created, Updated, Setting;
    ghost var s := engine.State();
    RunNothing(s);
    for i := 0 to |paths|
      invariant Run(s, ListActions(paths[..i], SetPermanent(true)), engine.State())
    {
      ghost var t := engine.State();
      engine.NewFile(paths[i]);
      ghost var u := engine.State();
      engine.SetPermanent(paths[i], true);
      Listed(s, paths, i, SetPermanent(true), t, u, engine.State());
    }
    assert paths[..|paths|] == paths;
  }

  method ParseExclude(engine: Engine, paths: seq<string>)
    modifies engine`entries
    ensures Run(old(engine.State()), ListActions(paths, SetExcluded(true)), engine.State())
  {
    hide Run, Created, Updated, Setting;
    ghost var s := engine.State();
    RunNothing(s);
    for i := 0 to |paths|
      invariant Run(s, ListActions(paths[..i], SetExcluded(true)), engine.State())
    {
      ghost var t := engine.State();
      engine.NewFile(paths[i]);
      ghost var u := engine.State();
      engine.SetExclude(paths[i], true);
      Listed(s, paths, i, SetExcluded(true), t, u, engine.State());
    }
    assert paths[..|paths|] == paths;
  }

  method ParseStorage(engine: Engine, paths: seq<string>, inMemory: bool)
    modifies engine`entries
    ensures Run(old(engine.State()), StorageActions(paths, inMemory), engine.State())
  {
    hide Run, Created, Updated, Setting;
    ghost var s := engine.State();
    RunNothing(s);
    for i := 0 to |paths|
      invariant Run(s, StorageActions(paths[..i], inMemory), engine.State())
    {
      ghost var t := engine.State();
      if inMemory {
        engine.SetStoreFileInMemory(paths[i]);
      } else {
        engine.SetStoreFileInFileSystem(paths[i]);
      }
      ghost var _ := Then(s, StorageActions(paths[..i], inMemory), t, paths[i], SetInMemory(inMemory), engine.State());
      assert paths[..i + 1][..i] == paths[..i];
    }
    assert paths[..|paths|] == paths;
  }

  method ParseGraph(engine: Engine, apps: seq<App>) returns (ok: bool)
    requires forall app | app in apps :: AppSchema(app)
    modifies engine`entries
    ensures ok == forall app | app in apps :: AppCountsFit(app)
    ensures ok ==> Run(old(engine.State()), GraphActions(apps), engine.State())
  {
    hide Run, AppActions, AppSchema, AppCountsFit;
    ghost var s := engine.State();
    RunNothing(s);
    for i := 0 to |apps|
      invariant forall k | 0 <= k < i :: AppCountsFit(apps[k])
      invariant Run(s, GraphActions(apps[..i]), engine.State())
    {
      assert apps[..i + 1][..i] == apps[..i] && apps[i] in apps;
      ghost var t := engine.State();
      ok := ParseApp(engine, apps[i]);
      if !ok {
        return;
      }
      RunConcat(s, GraphActions(apps[..i]), t, AppActions(apps[i]), engine.State());
    }
    assert apps[..|apps|] == apps;
    ok := true;
  }

  lemma AllInMemoryRuns(s: Store)
    ensures Run(s, [Raise, EditAll(SetInMemory(true))], EditedAll(s, SetInMemory(true)).(allInMemory := true))
  {
    var raised := s.(allInMemory := true);
    assert EditedAll(raised, SetInMemory(true)) == EditedAll(s, SetInMemory(true)).(allInMemory := true);
    RunTwo(s, Raise, raised, EditAll(SetInMemory(true)), EditedAll(raised, SetInMemory(true)));
  }

  method ParseTail(engine: Engine, doc: Document, memoryOnly: bool)
    modifies engine`entries, engine`storeAllInMemory
    ensures Run(old(engine.State()), TailActions(doc, memoryOnly), engine.State())
  {
    hide Run, ListActions, StorageActions, EditedAll;
    ghost var s := engine.State();
    ParsePermanent(engine, doc.permanent);
    ghost var t, acts := engine.State(), ListActions(doc.permanent, SetPermanent(true));
    ParseExclude(engine, doc.exclude);
    RunConcat(s, acts, t, ListActions(doc.exclude, SetExcluded(true)), engine.State());
    t, acts := engine.State(), acts + ListActions(doc.exclude, SetExcluded(true));
    ParseStorage(engine, doc.memory, true);
    RunConcat(s, acts, t, StorageActions(doc.memory, true), engine.State());
    t, acts := engine.State(), acts + StorageActions(doc.memory, true);
    ParseStorage(engine, doc.fileSystem, false);
    RunConcat(s, acts, t, StorageActions(doc.fileSystem, false), engine.State());
    t, acts := engine.State(), acts + StorageActions(doc.fileSystem, false);
    if memoryOnly {
      engine.SetAllStoreInMemory();
      AllInMemoryRuns(t);
      RunConcat(s, acts, t, [Raise, EditAll(SetInMemory(true))], engine.State());
    } else {
      assert acts + [] == acts;
    }
  }

  // parse_v1. A document the schema refuses, or with a close count no int holds, yields no engine.
  method Parse(doc: Document, memoryOnly: bool) returns (r: ParseResult)
    ensures r.SchemaError? <==> !Schema(doc)
    ensures r.Parsed? <==> Accepted(doc)
    ensures r.Parsed? ==>
      && fresh(r.engine)
      && r.engine.workflowName == doc.name
      && Run(EMPTY_STORE, DocumentActions(doc, memoryOnly), r.engine.State())
    ensures r.Parsed? && Separated(doc) ==>
      && (forall p | p != "" :: p in r.engine.entries <==> Mentions(doc, p))
      && (forall p | p != "" && Mentions(doc, p) :: r.engine.entries[p] == ParsedEntry(doc, memoryOnly, p))
  {
    hide Run, GraphActions, TailActions, Mentions, ParsedEntry, Separated, AppSchema, AppCountsFit;
    var engine := new Engine(None);
    if !Schema(doc) {
      return SchemaError;
    }
    engine.SetWorkflowName(doc.name);
    var ok := ParseGraph(engine, doc.ioGraph);
    if !ok {
      return CountOutOfRange;
    }
    ghost var graph := engine.State();
    ParseTail(engine, doc, memoryOnly);
    RunConcat(EMPTY_STORE, GraphActions(doc.ioGraph), graph, TailActions(doc, memoryOnly), engine.State());
    r := Parsed(engine);
    if Separated(doc) {
      forall p | p != ""
        ensures p in engine.entries <==> Mentions(doc, p)
        ensures p in engine.entries ==> engine.entries[p] == ParsedEntry(doc, memoryOnly, p)
      {
        ParsedMeaning(doc, memoryOnly, engine.State(), p);
      }
    }
  }
}
