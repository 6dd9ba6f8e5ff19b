// serialize_v1: the entry map inverted into one record per application, with the hash maps
// traversed in any order, and what every resulting document lists.
module Serializer {
  import opened Text
  import opened Entries
  import opened Store
  import opened Documents
  import opened Engines

  // ---- The document for given traversal orders ----

  function Apps(e: Entry, producing: bool): seq<string> {
    if producing then e.producers else e.consumers
  }

  // path once for each occurrence of a in apps.
  function Occurrences(apps: seq<string>, a: string, path: string): seq<string> {
    if apps == [] then []
    else Occurrences(apps[..|apps| - 1], a, path) + (if apps[|apps| - 1] == a then [path] else [])
  }

  // The paths a produces (or consumes), in the order of the keys.
  function PathsOf(es: EntryMap, order: seq<string>, producing: bool, a: string): seq<string>
    requires forall k | k in order :: k in es
  {
    if order == [] then []
    else
      var last := order[|order| - 1];
      PathsOf(es, order[..|order| - 1], producing, a) + Occurrences(Apps(es[last], producing), a, last)
  }

  function Selected(es: EntryMap, order: seq<string>, wanted: Entry -> bool): seq<string>
    requires forall k | k in order :: k in es
  {
    if order == [] then []
    else
      var last := order[|order| - 1];
      Selected(es, order[..|order| - 1], wanted) + (if wanted(es[last]) then [last] else [])
  }

  function CommittedText(e: Entry): string {
    if e.closeCount > 0 then ON_CLOSE + ":" + IntText(e.closeCount) else e.commitRule
  }

  function ItemFor(p: string, e: Entry): StreamItem {
    StreamItem(e.isFile, [p], Some(CommittedText(e)), Some(e.fireRule), Some(e.fileDependencies),
      if e.isFile then None else Some(e.childrenCount))
  }

  // The item written for p, field by field.
  ghost predicate Writes(item: StreamItem, p: string, e: Entry) {
    && item.isName == e.isFile && item.paths == [p]
    && item.committed == Some(if e.closeCount > 0 then "on_close:" + IntText(e.closeCount) else e.commitRule)
    && item.mode == Some(e.fireRule)
    && item.fileDeps == Some(e.fileDependencies)
    && item.nFiles == (if e.isFile then None else Some(e.childrenCount))
  }

  lemma ItemForWrites(p: string, e: Entry)
    ensures Writes(ItemFor(p, e), p, e)
  {
    hide IntText;
    assert ON_CLOSE + ":" == "on_close:";
  }

  function ItemsFor(es: EntryMap, paths: seq<string>): seq<StreamItem>
    requires forall p | p in paths :: p in es
  {
    if paths == [] then []
    else ItemsFor(es, paths[..|paths| - 1]) + [ItemFor(paths[|paths| - 1], es[paths[|paths| - 1]])]
  }

  function ProducingApp(es: EntryMap, order: seq<string>, a: string): App
    requires forall k | k in order :: k in es
  {
    PathsOfKeys(es, order, true, a);
    var outputs := PathsOf(es, order, true, a);
    App(a, PathsOf(es, order, false, a), outputs, ItemsFor(es, outputs))
  }

  function ProducingApps(es: EntryMap, order: seq<string>, outApps: seq<string>): seq<App>
    requires forall k | k in order :: k in es
  {
    if outApps == [] then []
    else ProducingApps(es, order, outApps[..|outApps| - 1]) + [ProducingApp(es, order, outApps[|outApps| - 1])]
  }

  // Applications that only consume.
  function ConsumingApps(es: EntryMap, order: seq<string>, inApps: seq<string>, outApps: seq<string>): seq<App>
    requires forall k | k in order :: k in es
  {
    if inApps == [] then []
    else
      var last := inApps[|inApps| - 1];
      ConsumingApps(es, order, inApps[..|inApps| - 1], outApps)
      + (if last in outApps then [] else [App(last, PathsOf(es, order, false, last), [], [])])
  }

  function Dump(es: EntryMap, name: string, order: seq<string>, outApps: seq<string>, inApps: seq<string>): Document
    requires forall k | k in order :: k in es
  {
    Document(name, ProducingApps(es, order, outApps) + ConsumingApps(es, order, inApps, outApps),
      Selected(es, order, (e: Entry) => e.permanent), Selected(es, order, (e: Entry) => e.excluded),
      Selected(es, order, (e: Entry) => e.inMemory), Selected(es, order, (e: Entry) => !e.inMemory))
  }

  ghost predicate Enumerates(xs: seq<string>, s: set<string>) {
    NoDuplicates(xs) && forall x :: x in xs <==> x in s
  }

  lemma EnumeratesNothing()
    ensures Enumerates([], {})
  {
  }

  lemma EnumeratesMore(xs: seq<string>, s: set<string>, x: string)
    requires Enumerates(xs, s) && x !in s
    ensures Enumerates(xs + [x], s + {x})
  {
  }

  function AppNames(es: EntryMap, producing: bool): set<string> {
    set p, a | p in es && a in Apps(es[p], producing) :: a
  }

  ghost predicate DumpOrder(es: EntryMap, order: seq<string>, outApps: seq<string>, inApps: seq<string>) {
    && Enumerates(order, es.Keys)
    && Enumerates(outApps, AppNames(es, true))
    && Enumerates(inApps, AppNames(es, true) + AppNames(es, false))
  }

  // doc is what serialize_v1 writes for some traversal orders of its three hash maps.
  ghost predicate IsDump(es: EntryMap, name: string, doc: Document) {
    exists order, outApps, inApps ::
      DumpOrder(es, order, outApps, inApps) && doc == Dump(es, name, order, outApps, inApps)
  }

  lemma {:induction false} PathsOfKeys(es: EntryMap, order: seq<string>, producing: bool, a: string)
    requires forall k | k in order :: k in es
    ensures forall p :: p in PathsOf(es, order, producing, a) <==> p in order && a in Apps(es[p], producing)
  {
    if order != [] {
      var init, last := order[..|order| - 1], order[|order| - 1];
      assert order == init + [last];
      PathsOfKeys(es, init, producing, a);
      OccurrencesOf(Apps(es[last], producing), a, last);
    }
  }

  lemma {:induction false} OccurrencesOf(apps: seq<string>, a: string, path: string)
    ensures forall p :: p in Occurrences(apps, a, path) <==> p == path && a in apps
  {
    if apps != [] {
      assert apps == apps[..|apps| - 1] + [apps[|apps| - 1]];
      OccurrencesOf(apps[..|apps| - 1], a, path);
    }
  }

  // ---- The serializer ----

  // What app_outputs (or app_inputs) holds for a once the keys of order are done, and apps is the
  // part done of the next key's list.
  function Gathered(es: EntryMap, order: seq<string>, producing: bool, apps: seq<string>, path: string, a: string): seq<string>
    requires forall k | k in order :: k in es
  {
    PathsOf(es, order, producing, a) + Occurrences(apps, a, path)
  }

  ghost predicate Groups(m: map<string, seq<string>>, es: EntryMap, order: seq<string>, producing: bool,
                         apps: seq<string>, path: string)
    requires forall k | k in order :: k in es
  {
    forall a :: a in m <==> Gathered(es, order, producing, apps, path, a) != []
  }

  ghost predicate GroupsExactly(m: map<string, seq<string>>, es: EntryMap, order: seq<string>, producing: bool,
                                apps: seq<string>, path: string)
    requires forall k | k in order :: k in es
  {
    && Groups(m, es, order, producing, apps, path)
    && forall a | a in m :: m[a] == Gathered(es, order, producing, apps, path, a)
  }

  lemma OneMoreApp(m: map<string, seq<string>>, es: EntryMap, order: seq<string>, producing: bool,
                   apps: seq<string>, app: string, path: string)
    requires forall k | k in order :: k in es
    requires GroupsExactly(m, es, order, producing, apps, path)
    ensures GroupsExactly(m[app := (if app in m then m[app] else []) + [path]], es, order, producing, apps + [app], path)
  {
    hide Gathered;
    forall a
      ensures Gathered(es, order, producing, apps + [app], path, a)
           == Gathered(es, order, producing, apps, path, a) + (if app == a then [path] else [])
    {
      GatheredMore(es, order, producing, apps, app, path, a);
    }
  }

  lemma GatheredMore(es: EntryMap, order: seq<string>, producing: bool, apps: seq<string>, app: string, path: string, a: string)
    requires forall k | k in order :: k in es
    ensures Gathered(es, order, producing, apps + [app], path, a)
         == Gathered(es, order, producing, apps, path, a) + (if app == a then [path] else [])
  {
    hide PathsOf;
    assert (apps + [app])[..|apps|] == apps;
  }

  lemma KeyDone(m: map<string, seq<string>>, es: EntryMap, order: seq<string>, producing: bool, path: string)
    requires (forall k | k in order :: k in es) && path in es
    requires GroupsExactly(m, es, order, producing, Apps(es[path], producing), path)
    ensures forall next :: GroupsExactly(m, es, order + [path], producing, [], next)
  {
    assert (order + [path])[..|order|] == order;
    forall next, a
      ensures Gathered(es, order + [path], producing, [], next, a)
           == Gathered(es, order, producing, Apps(es[path], producing), path, a)
    {
    }
  }

  method Group(m: map<string, seq<string>>, ghost es: EntryMap, ghost order: seq<string>, ghost producing: bool,
               apps: seq<string>, path: string)
    returns (grouped: map<string, seq<string>>)
    requires (forall k | k in order :: k in es) && path in es && apps == Apps(es[path], producing)
    requires GroupsExactly(m, es, order, producing, [], path)
    ensures forall next :: GroupsExactly(grouped, es, order + [path], producing, [], next)
  {
    hide GroupsExactly;
    grouped := m;
    for i := 0 to |apps|
      invariant GroupsExactly(grouped, es, order, producing, apps[..i], path)
    {
      var app := apps[i];
      OneMoreApp(grouped, es, order, producing, apps[..i], app, path);
      assert apps[..i + 1] == apps[..i] + [app];
      grouped := grouped[app := (if app in grouped then grouped[app] else []) + [path]];
    }
    assert apps[..|apps|] == apps;
    KeyDone(grouped, es, order, producing, path);
  }

  datatype Gathering = Gathering(
    permanent: seq<string>, exclude: seq<string>, memory: seq<string>, fileSystem: seq<string>,
    appOutputs: map<string, seq<string>>, appInputs: map<string, seq<string>>)

  ghost predicate Gathers(g: Gathering, es: EntryMap, order: seq<string>)
    requires forall k | k in order :: k in es
  {
    && g.permanent == Selected(es, order, (e: Entry) => e.permanent)
    && g.exclude == Selected(es, order, (e: Entry) => e.excluded)
    && g.memory == Selected(es, order, (e: Entry) => e.inMemory)
    && g.fileSystem == Selected(es, order, (e: Entry) => !e.inMemory)
    && (forall next :: GroupsExactly(g.appOutputs, es, order, true, [], next))
    && (forall next :: GroupsExactly(g.appInputs, es, order, false, [], next))
  }

  lemma NothingGathered(es: EntryMap)
    ensures Enumerates([], es.Keys - es.Keys) && Gathers(Gathering([], [], [], [], map[], map[]), es, [])
  {
  }

  lemma SelectedMore(es: EntryMap, order: seq<string>, path: string)
    requires (forall k | k in order :: k in es) && path in es
    ensures forall wanted: Entry -> bool ::
      Selected(es, order + [path], wanted) == Selected(es, order, wanted) + (if wanted(es[path]) then [path] else [])
  {
    assert (order + [path])[..|order|] == order;
  }

  // The pass over the entries.
  method Gather(es: EntryMap) returns (g: Gathering)
    ensures exists order :: Enumerates(order, es.Keys) && Gathers(g, es, order)
  {
    hide Enumerates, Selected;
    var permanent, exclude, memory, fileSystem: seq<string> := [], [], [], [];
    var appOutputs: map<string, seq<string>>, appInputs: map<string, seq<string>> := map[], map[];
    ghost var order: seq<string> := [];
    var todo := es.Keys;
    g := Gathering(permanent, exclude, memory, fileSystem, appOutputs, appInputs);
    NothingGathered(es);
    while todo != {}
      invariant todo <= es.Keys && Enumerates(order, es.Keys - todo) && forall k | k in order :: k in es
      invariant g == Gathering(permanent, exclude, memory, fileSystem, appOutputs, appInputs)
      invariant Gathers(g, es, order)
    {
      var path :| path in todo;
      var entry := es[path];
      if entry.permanent {
        permanent := permanent + [path];
      }
      if entry.excluded {
        exclude := exclude + [path];
      }
      if entry.inMemory {
        memory := memory + [path];
      } else {
        fileSystem := fileSystem + [path];
      }
      appOutputs := Group(appOutputs, es, order, true, entry.producers, path);
      appInputs := Group(appInputs, es, order, false, entry.consumers, path);
      SelectedMore(es, order, path);
      EnumeratesMore(order, es.Keys - todo, path);
      assert (es.Keys - todo) + {path} == es.Keys - (todo - {path});
      todo := todo - {path};
      order := order + [path];
      g := Gathering(permanent, exclude, memory, fileSystem, appOutputs, appInputs);
    }
    assert es.Keys - todo == es.Keys;
  }

  // ---- The records of the applications ----

  method Stream(es: EntryMap, outputs: seq<string>) returns (streaming: seq<StreamItem>)
    requires forall p | p in outputs :: p in es
    ensures streaming == ItemsFor(es, outputs)
    ensures |streaming| == |outputs| && forall i | 0 <= i < |outputs| :: Writes(streaming[i], outputs[i], es[outputs[i]])
  {
    hide Writes, IntText;
    streaming := [];
    for i := 0 to |outputs|
      invariant streaming == ItemsFor(es, outputs[..i])
      invariant |streaming| == i && forall k | 0 <= k < i :: Writes(streaming[k], outputs[k], es[outputs[k]])
    {
      var path := outputs[i];
      var entry := es[path];
      var committed := entry.commitRule;
      if entry.closeCount > 0 {
        if entry.commitRule == ON_CLOSE {
          committed := entry.commitRule + ":" + IntText(entry.closeCount);
        } else {
          committed := ON_CLOSE + ":" + IntText(entry.closeCount);
        }
      }
      var item := StreamItem(entry.isFile, [path], Some(committed), Some(entry.fireRule), Some(entry.fileDependencies), None);
      if !entry.isFile {
        item := item.(nFiles := Some(entry.childrenCount));
      }
      ItemForWrites(path, entry);
      streaming := streaming + [item];
      assert outputs[..i + 1][..i] == outputs[..i];
    }
    assert outputs[..|outputs|] == outputs;
  }

  // The applications that produce; looking up their inputs adds the missing ones, empty.
  method Producing(es: EntryMap, ghost order: seq<string>, appOutputs: map<string, seq<string>>,
                   appInputs: map<string, seq<string>>)
    returns (ioGraph: seq<App>, inputs: map<string, seq<string>>, ghost outApps: seq<string>)
    requires forall k | k in order :: k in es
    requires forall a | a in appOutputs :: appOutputs[a] == PathsOf(es, order, true, a)
    requires forall a :: if a in appInputs then appInputs[a] == PathsOf(es, order, false, a) else PathsOf(es, order, false, a) == []
    ensures Enumerates(outApps, appOutputs.Keys) && ioGraph == ProducingApps(es, order, outApps)
    ensures inputs.Keys == appInputs.Keys + appOutputs.Keys
    ensures forall a | a in inputs :: inputs[a] == PathsOf(es, order, false, a)
  {
    hide PathsOf, ItemsFor, Enumerates;
    ioGraph, inputs, outApps := [], appInputs, [];
    var todo := appOutputs.Keys;
    EnumeratesNothing();
    assert appOutputs.Keys - todo == {};
    while todo != {}
      invariant todo <= appOutputs.Keys && Enumerates(outApps, appOutputs.Keys - todo)
      invariant ioGraph == ProducingApps(es, order, outApps)
      invariant inputs.Keys == appInputs.Keys + (appOutputs.Keys - todo)
      invariant forall a | a in inputs :: inputs[a] == PathsOf(es, order, false, a)
    {
      var app :| app in todo;
      var outputs := appOutputs[app];
      PathsOfKeys(es, order, true, app);
      var streaming := Stream(es, outputs);
      if app !in inputs {
        inputs := inputs[app := []];
      }
      ioGraph := ioGraph + [App(app, inputs[app], outputs, streaming)];
      assert (outApps + [app])[..|outApps|] == outApps;
      EnumeratesMore(outApps, appOutputs.Keys - todo, app);
      assert (appOutputs.Keys - todo) + {app} == appOutputs.Keys - (todo - {app});
      todo := todo - {app};
      outApps := outApps + [app];
    }
    assert appOutputs.Keys - todo == appOutputs.Keys;
  }

  function Names(apps: seq<App>): set<string> {
    set app | app in apps :: app.name
  }

  lemma NamesAppended(apps: seq<App>, app: App)
    ensures Names(apps + [app]) == Names(apps) + {app.name}
  {
    assert app in apps + [app] && forall x | x in apps :: x in apps + [app];
  }

  method IsRecorded(apps: seq<App>, name: string) returns (contained: bool)
    ensures contained <==> name in Names(apps)
  {
    for i := 0 to |apps|
      invariant forall k | 0 <= k < i :: apps[k].name != name
    {
      if apps[i].name == name {
        return true;
      }
    }
    contained := false;
  }

  // The applications not yet recorded.
  method Consuming(es: EntryMap, ghost order: seq<string>, ghost outApps: seq<string>,
                   inputs: map<string, seq<string>>, producing: seq<App>)
    returns (ioGraph: seq<App>)
    requires forall k | k in order :: k in es
    requires forall a | a in inputs :: inputs[a] == PathsOf(es, order, false, a)
    requires forall a :: a in outApps <==> a in Names(producing)
    ensures exists inApps ::
      Enumerates(inApps, inputs.Keys) && ioGraph == producing + ConsumingApps(es, order, inApps, outApps)
  {
    hide PathsOf, Names;
    ioGraph := producing;
    ghost var inApps: seq<string> := [];
    var todo := inputs.Keys;
    while todo != {}
      invariant todo <= inputs.Keys && Enumerates(inApps, inputs.Keys - todo)
      invariant ioGraph == producing + ConsumingApps(es, order, inApps, outApps)
      invariant forall a | a in todo :: a in outApps <==> a in Names(ioGraph)
    {
      var name :| name in todo;
      var contained := IsRecorded(ioGraph, name);
      assert (inApps + [name])[..|inApps|] == inApps;
      if !contained {
        NamesAppended(ioGraph, App(name, inputs[name], [], []));
        ioGraph := ioGraph + [App(name, inputs[name], [], [])];
      }
      todo := todo - {name};
      inApps := inApps + [name];
    }
  }

  // serialize_v1
  method Serialize(engine: Engine) returns (doc: Document)
    ensures IsDump(engine.entries, engine.workflowName, doc)
  {
    hide PathsOf, Selected;
    var files := engine.entries;
    var g := Gather(files);
    ghost var order :| Enumerates(order, files.Keys) && Gathers(g, files, order);
    GatheredKeys(g, files, order);
    var ioGraph, inputs, outApps := Producing(files, order, g.appOutputs, g.appInputs);
    ProducingNames(files, order, outApps);
    ghost var producing := ioGraph;
    ioGraph := Consuming(files, order, outApps, inputs, ioGraph);
    ghost var inApps :| Enumerates(inApps, inputs.Keys) && ioGraph == producing + ConsumingApps(files, order, inApps, outApps);
    doc := Document(engine.workflowName, ioGraph, g.permanent, g.exclude, g.memory, g.fileSystem);
    assert DumpOrder(files, order, outApps, inApps);
    assert doc == Dump(files, engine.workflowName, order, outApps, inApps);
  }

  lemma GatheredKeys(g: Gathering, es: EntryMap, order: seq<string>)
    requires Enumerates(order, es.Keys) && Gathers(g, es, order)
    ensures g.appOutputs.Keys == AppNames(es, true) && g.appInputs.Keys == AppNames(es, false)
    ensures forall a | a in g.appOutputs :: g.appOutputs[a] == PathsOf(es, order, true, a)
    ensures forall a :: if a in g.appInputs then g.appInputs[a] == PathsOf(es, order, false, a)
                        else PathsOf(es, order, false, a) == []
  {
    GroupedKeys(g.appOutputs, es, order, true);
    GroupedKeys(g.appInputs, es, order, false);
  }

  lemma GroupedKeys(m: map<string, seq<string>>, es: EntryMap, order: seq<string>, producing: bool)
    requires Enumerates(order, es.Keys) && GroupsExactly(m, es, order, producing, [], "")
    ensures m.Keys == AppNames(es, producing)
    ensures forall a :: if a in m then m[a] == PathsOf(es, order, producing, a) else PathsOf(es, order, producing, a) == []
  {
    hide PathsOf;
    forall a
      ensures a in m <==> a in AppNames(es, producing)
      ensures if a in m then m[a] == PathsOf(es, order, producing, a) else PathsOf(es, order, producing, a) == []
    {
      var paths := PathsOf(es, order, producing, a);
      assert Gathered(es, order, producing, [], "", a) == paths + [] == paths;
      PathsOfKeys(es, order, producing, a);
      if paths != [] {
        assert paths[0] in paths;
      }
    }
  }

  lemma {:induction false} ProducingNames(es: EntryMap, order: seq<string>, outApps: seq<string>)
    requires forall k | k in order :: k in es
    ensures forall a :: a in outApps <==> a in Names(ProducingApps(es, order, outApps))
  {
    hide PathsOf, ItemsFor, Names;
    if outApps == [] {
      assert Names([]) == {} by {
        NoNames();
      }
    } else {
      var init, last := outApps[..|outApps| - 1], outApps[|outApps| - 1];
      assert outApps == init + [last];
      ProducingNames(es, order, init);
      NamesAppended(ProducingApps(es, order, init), ProducingApp(es, order, last));
    }
  }

  lemma NoNames()
    ensures Names([]) == {}
  {
  }
}
