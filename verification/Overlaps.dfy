// Why the round trip needs keys that do not match one another: a path that only the storage lists
// name comes back with the producers of the pattern that matches it.
module Overlaps {
  import opened Text
  import opened Glob
  import opened Paths
  import opened Entries
  import opened Store
  import opened Projection
  import opened Documents
  import opened Meaning
  import opened Serializer
  import opened RoundTrip
  import opened RoundTripLimits

  predicate Produced(s: Store, p: string) {
    p in s.entries && s.entries[p].producers != []
  }

  ghost predicate KeepsPaths(acts: seq<Action>) {
    forall p | p != "" :: Drop(p) !in acts
  }

  lemma StepKeepsProduced(s: Store, a: Action, s': Store, p: string)
    requires Step(s, a, s') && a != Drop(p)
    ensures p in s.entries ==> p in s'.entries
    ensures Produced(s, p) ==> Produced(s', p)
  {
    hide Match, Parent, Placed, Apply;
    if a.New? && a.p != "" && a.p !in s.entries {
      CreationFrame(s, a.p, s');
    } else if a.Edit? || a.EditAll? {
      if p in s.entries {
        ProducersKept(a.c, s.entries[p]);
      }
    }
  }

  lemma ProducersKept(c: Change, e: Entry)
    ensures e.producers != [] ==> Apply(c, e).producers != []
  {
  }

  lemma {:induction false} RunKeepsProduced(s: Store, acts: seq<Action>, s': Store, p: string)
    requires Run(s, acts, s') && Drop(p) !in acts
    ensures p in s.entries ==> p in s'.entries
    ensures Produced(s, p) ==> Produced(s', p)
  {
    hide Step, Produced;
    if acts != [] {
      var init, last := acts[..|acts| - 1], acts[|acts| - 1];
      assert acts == init + [last];
      var m :| Run(s, init, m) && Step(m, last, s');
      RunKeepsProduced(s, init, m, p);
      StepKeepsProduced(m, last, s', p);
    }
  }

  lemma {:induction false} ListProduces(s: Store, paths: seq<string>, a: string, s': Store, p: string)
    requires Run(s, ListActions(paths, AddProducer(a)), s') && p in paths && p != ""
    ensures Produced(s', p)
  {
    hide Run, Produced;
    var init, last := paths[..|paths| - 1], paths[|paths| - 1];
    assert paths == init + [last];
    var step := [New(last)] + Setting(last, AddProducer(a));
    var m := RunSplit(s, ListActions(init, AddProducer(a)), step, s');
    if p == last {
      var u := RunSplit(m, [New(p)], [New(p), Edit(p, AddProducer(a))], s');
      assert [New(p), Edit(p, AddProducer(a))] == [New(p)] + [Edit(p, AddProducer(a))];
      var v := RunSplit(u, [New(p)], [Edit(p, AddProducer(a))], s');
      RunOneStep(u, New(p), v);
      RunOneStep(v, Edit(p, AddProducer(a)), s');
      AddsProducer(u, v, p, a, s');
    } else {
      ListProduces(s, init, a, m, p);
      RunKeepsProduced(m, step, s', p);
    }
  }

  lemma AddsProducer(u: Store, v: Store, p: string, a: string, s': Store)
    requires p != "" && Step(u, New(p), v) && Step(v, Edit(p, AddProducer(a)), s')
    ensures Produced(s', p)
  {
    CreatedExists(u, p, v);
    hide Created;
  }

  lemma {:induction false} GraphProduces(s: Store, apps: seq<App>, s': Store, app: App, p: string)
    requires Run(s, GraphActions(apps), s') && app in apps && p in app.outputs && p != ""
    ensures Produced(s', p)
  {
    hide Run, Produced, AppActions;
    var init, last := apps[..|apps| - 1], apps[|apps| - 1];
    assert apps == init + [last];
    var m := RunSplit(s, GraphActions(init), AppActions(last), s');
    AppCreates(last, p);
    if app in init {
      GraphProduces(s, init, m, app, p);
      RunKeepsProduced(m, AppActions(last), s', p);
    } else {
      AppProduces(m, app, s', p);
    }
  }

  lemma {:induction false} AppProduces(s: Store, app: App, s': Store, p: string)
    requires Run(s, AppActions(app), s') && p in app.outputs && p != ""
    ensures Produced(s', p)
  {
    hide Run, Produced, ListActions, StreamActions;
    var consume, produce := AddConsumer(Strip(app.name)), AddProducer(Strip(app.name));
    var inputs, outputs := ListActions(app.inputs, consume), ListActions(app.outputs, produce);
    var m := RunSplit(s, inputs + outputs, StreamActions(app.streaming), s');
    var u := RunSplit(s, inputs, outputs, m);
    ListProduces(u, app.outputs, Strip(app.name), m, p);
    StreamCreates(app.streaming, p);
    RunKeepsProduced(m, StreamActions(app.streaming), s', p);
  }

  // A path created among produced patterns takes the producers of one of them.
  lemma CreationInherits(s: Store, p: string, s': Store, k: string)
    requires p != "" && p !in s.entries && Created(s, p, s')
    requires Matching(s.entries, p, k)
    requires forall j | Matching(s.entries, p, j) :: Produced(s, j)
    ensures Produced(s', p)
  {
    hide Match, Parent, Placed;
    var source :| Source(s.entries, p, source) && s' == Insert(s, p, source);
    PlacedFrame(s, p, Inherited(s, source));
  }

  lemma {:induction false} TailInherits(s: Store, acts: seq<Action>, s': Store, p: string, k: string, keys: set<string>)
    requires Run(s, acts, s') && KeepsPaths(acts)
    requires p != "" && p !in s.entries && p in s'.entries
    requires forall q | q in s'.entries && q != "" :: q in keys
    requires Matching(s.entries, p, k)
    requires forall j | j in keys && j != p && j != "" && Match(j, p) :: Produced(s, j)
    ensures Produced(s', p)
  {
    hide Step, Match, Created, Produced;
    if acts != [] {
      var init, last := acts[..|acts| - 1], acts[|acts| - 1];
      assert acts == init + [last];
      var m :| Run(s, init, m) && Step(m, last, s');
      hide Run;
      assert KeepsPaths(init) by {
        assert forall a | a in init :: a in acts;
      }
      StepKeys(m, last, s');
      assert last in acts;
      if p in m.entries {
        KeysGrow(m, last, s');
        TailInherits(s, init, m, p, k, keys);
        StepKeepsProduced(m, last, s', p);
      } else {
        assert last == New(p);
        KeysGrow(m, last, s');
        forall j | Matching(m.entries, p, j)
          ensures Produced(m, j)
        {
          RunKeepsProduced(s, init, m, j);
        }
        RunKeepsProduced(s, init, m, k);
        assert Created(m, p, s') by {
          NewCreates(m, p, s');
        }
        CreationInherits(m, p, s', k);
      }
    }
  }

  lemma KeysGrow(s: Store, a: Action, s': Store)
    requires Step(s, a, s') && (a.Drop? ==> a.p == "")
    ensures forall q | q in s.entries && q != "" :: q in s'.entries
  {
    StepKeys(s, a, s');
  }

  lemma NewCreates(s: Store, p: string, s': Store)
    requires Step(s, New(p), s')
    ensures Created(s, p, s')
  {
  }

  // ---- The theorem ----

  // p is named by nothing but the storage lists.
  predicate OnlyStored(es: EntryMap, p: string) {
    && p in es && p != ""
    && es[p].producers == [] && es[p].consumers == [] && !es[p].permanent && !es[p].excluded
    && forall q | q in es && es[q].producers != [] :: p !in Dependencies(ItemFor(q, es[q]))
  }

  // An engine with such a path does not survive the round trip once another key matches it, if the
  // keys that match it have producers.
  lemma OverlapLost(es: EntryMap, memoryOnly: bool, p: string, k: string)
    requires OnlyStored(es, p)
    requires k in es && k != p && k != "" && Match(k, p)
    requires forall j | j in es && j != p && j != "" && Match(j, p) :: es[j].producers != []
    ensures !RoundTrips(es, memoryOnly)
  {
    hide Run, DocumentActions, IsDump, Match, EntriesEqual, ItemFor, Dependencies;
    var doc := DumpExists(es);
    var s := RunExists(EMPTY_STORE, DocumentActions(doc, memoryOnly));
    DumpLists(es, "", doc);
    if s.entries.Keys == es.Keys {
      OverlapInherits(es, memoryOnly, p, k, doc, s);
    }
    ProducersDiffer(es, memoryOnly, s, p);
  }

  lemma ProducersDiffer(es: EntryMap, memoryOnly: bool, s: Store, p: string)
    requires p in es && es[p].producers == [] && (s.entries.Keys == es.Keys ==> Produced(s, p))
    ensures !EntriesEqual(Remembered(es, memoryOnly), s.entries)
  {
    if EntriesEqual(Remembered(es, memoryOnly), s.entries) {
      SameKeys(es, memoryOnly, s);
    }
  }

  lemma {:induction false} OverlapInherits(es: EntryMap, memoryOnly: bool, p: string, k: string, doc: Document, s: Store)
    requires OnlyStored(es, p) && Lists(es, doc)
    requires k in es && k != p && k != "" && Match(k, p)
    requires forall j | j in es && j != p && j != "" && Match(j, p) :: es[j].producers != []
    requires Run(EMPTY_STORE, DocumentActions(doc, memoryOnly), s) && s.entries.Keys == es.Keys
    ensures Produced(s, p)
  {
    hide Run, GraphActions, TailActions, Match, Lists, Produced, ItemFor, Dependencies;
    var m := RunSplit(EMPTY_STORE, GraphActions(doc.ioGraph), TailActions(doc, memoryOnly), s);
    RunKeys(GraphActions(doc.ioGraph), m);
    NotInGraph(es, doc, p);
    forall j | j in es && es[j].producers != [] && j != ""
      ensures Produced(m, j)
    {
      var app := ProducerListed(es, doc, j);
      GraphProduces(EMPTY_STORE, doc.ioGraph, m, app, j);
    }
    TailKeepsPaths(doc, memoryOnly);
    assert Matching(m.entries, p, k) by {
      assert Produced(m, k);
      ProducedIsKey(m, k);
    }
    TailInherits(m, TailActions(doc, memoryOnly), s, p, k, es.Keys);
  }

  lemma ProducedIsKey(s: Store, p: string)
    requires Produced(s, p)
    ensures p in s.entries
  {
  }

  lemma ProducerListed(es: EntryMap, doc: Document, p: string) returns (app: App)
    requires Lists(es, doc) && p in es && es[p].producers != []
    ensures app in doc.ioGraph && p in app.outputs
  {
    hide ItemFor;
    var a := es[p].producers[0];
    assert a in Apps(es[p], true) && a in AppNames(es, true) + AppNames(es, false);
    app :| app in doc.ioGraph && app.name == a;
    assert Records(es, app);
  }

  lemma NotInGraph(es: EntryMap, doc: Document, p: string)
    requires OnlyStored(es, p) && Lists(es, doc)
    ensures New(p) !in GraphActions(doc.ioGraph)
  {
    hide ItemFor, Dependencies, GraphActions;
    GraphCreates(doc.ioGraph, p);
    DumpedItems(es, doc);
    forall app | app in doc.ioGraph
      ensures !AppMentions(app, p)
    {
      assert Records(es, app);
      forall item | item in app.streaming
        ensures !ItemMentions(item, p)
      {
        ItemsIn(doc.ioGraph, item);
        var q :| q in es && es[q].producers != [] && item == ItemFor(q, es[q]);
        KindOfItem(q, es[q]);
      }
    }
  }

  lemma TailKeepsPaths(doc: Document, memoryOnly: bool)
    ensures KeepsPaths(TailActions(doc, memoryOnly))
  {
    hide GraphActions, TailActions, Mentions;
    forall p | p != ""
      ensures Drop(p) !in TailActions(doc, memoryOnly)
    {
      DocumentCreates(doc, memoryOnly, p);
    }
  }
}
