// Fixing a directory's file count turns every path known so far into a directory. What that does to
// an entry no application produces, whose kind no streaming item restores: the conditions on the
// engine, the parser's visits to it in traversal order, which tell its kind, and the orders that keep
// or change it.
module Kinds {
  import opened Text
  import opened Entries
  import opened Store
  import opened Projection
  import opened Documents
  import opened Meaning
  import opened Serializer

  // ---- The conditions ----

  // The item written for d fixes a file count.
  predicate Counted(es: EntryMap, d: string) {
    d in es && !es[d].isFile && es[d].childrenCount != 0
  }

  predicate NothingCounted(es: EntryMap) {
    forall d | d in es :: !Counted(es, d)
  }

  // The item written for q lists p among its dependencies.
  predicate DependsOn(es: EntryMap, q: string, p: string) {
    q in es && es[q].producers != [] && p in Dependencies(ItemFor(q, es[q]))
  }

  predicate SoleCounted(es: EntryMap, q: string) {
    Counted(es, q) && |es[q].producers| == 1 && forall d | d in es && Counted(es, d) :: d == q
  }

  // No order fixes a count after the parser has met p: p is consumed only by applications that
  // produce nothing, and only the one counted directory, produced once, depends on it.
  ghost predicate StaysFile(es: EntryMap, p: string)
    requires p in es
  {
    || NothingCounted(es)
    || (&& (forall a | a in es[p].consumers :: a !in AppNames(es, true))
        && (forall q | DependsOn(es, q, p) :: SoleCounted(es, q)))
  }

  predicate ProducesCounted(es: EntryMap, a: string, d: string) {
    Counted(es, d) && a in es[d].producers
  }

  // a produces a path that depends on p, and a counted directory.
  predicate Entangled(es: EntryMap, a: string, p: string) {
    && (exists q | q in es :: DependsOn(es, q, p) && a in es[q].producers)
    && (exists d | d in es :: ProducesCounted(es, a, d))
  }

  // Every order fixes a count after the parser has met p: an application that consumes p produces a
  // counted directory, or two are entangled with p, or one produces two counted directories that
  // depend on p.
  ghost predicate BecomesDirectory(es: EntryMap, p: string)
    requires p in es
  {
    || (exists a, d :: a in es[p].consumers && ProducesCounted(es, a, d))
    || (exists a, b :: a != b && Entangled(es, a, p) && Entangled(es, b, p))
    || (exists a, q, d :: q != d && ProducesCounted(es, a, q) && ProducesCounted(es, a, d)
          && DependsOn(es, q, p) && DependsOn(es, d, p))
  }

  // ---- The visits ----

  datatype Stage = Absent | AsFile | AsDirectory

  // What the parser does that may matter to a path: read an application's inputs, or one of its items.
  datatype Visit = Inputs(app: string) | Item(app: string, q: string)

  predicate Creates(es: EntryMap, v: Visit, p: string)
    requires p in es
  {
    match v
    case Inputs(a) => a in es[p].consumers
    case Item(_, q) => DependsOn(es, q, p)
  }

  predicate Pins(es: EntryMap, v: Visit) {
    v.Item? && Counted(es, v.q)
  }

  function VisitStage(st: Stage, es: EntryMap, v: Visit, p: string): Stage
    requires p in es
  {
    match st
    case Absent => if Creates(es, v, p) then AsFile else Absent
    case AsFile => if Pins(es, v) then AsDirectory else AsFile
    case AsDirectory => AsDirectory
  }

  function StageAfter(st: Stage, es: EntryMap, visits: seq<Visit>, p: string): Stage
    requires p in es
  {
    if visits == [] then st
    else VisitStage(StageAfter(st, es, visits[..|visits| - 1], p), es, visits[|visits| - 1], p)
  }

  function ItemVisits(a: string, paths: seq<string>): (visits: seq<Visit>)
    ensures |visits| == |paths|
  {
    seq(|paths|, i requires 0 <= i < |paths| => Item(a, paths[i]))
  }

  function AppVisits(es: EntryMap, order: seq<string>, a: string): seq<Visit>
    requires forall k | k in order :: k in es
  {
    [Inputs(a)] + ItemVisits(a, PathsOf(es, order, true, a))
  }

  // The visits of the producing applications.
  function Visits(es: EntryMap, order: seq<string>, apps: seq<string>): seq<Visit>
    requires forall k | k in order :: k in es
  {
    if apps == [] then []
    else Visits(es, order, apps[..|apps| - 1]) + AppVisits(es, order, apps[|apps| - 1])
  }

  lemma {:induction false} StageConcat(st: Stage, es: EntryMap, visits: seq<Visit>, more: seq<Visit>, p: string)
    requires p in es
    ensures StageAfter(st, es, visits + more, p) == StageAfter(StageAfter(st, es, visits, p), es, more, p)
  {
    hide VisitStage;
    if more == [] {
      assert visits + more == visits;
    } else {
      var all, init := visits + more, more[..|more| - 1];
      assert all[..|all| - 1] == visits + init;
      StageConcat(st, es, visits, init, p);
    }
  }

  // What a stretch of visits can and cannot do.
  lemma {:induction false} StretchStage(st: Stage, es: EntryMap, visits: seq<Visit>, p: string)
    requires p in es
    ensures var st' := StageAfter(st, es, visits, p);
      && (st.AsDirectory? ==> st'.AsDirectory?)
      && (!st.Absent? || (exists v | v in visits :: Creates(es, v, p)) ==> !st'.Absent?)
      && (!st.Absent? && (exists v | v in visits :: Pins(es, v)) ==> st'.AsDirectory?)
      && (st.Absent? && (forall v | v in visits :: !Creates(es, v, p)) ==> st'.Absent?)
      && (!st.AsDirectory? && (forall v | v in visits :: !Pins(es, v)) ==> !st'.AsDirectory?)
  {
    hide Creates, Pins;
    if visits != [] {
      var init, last := visits[..|visits| - 1], visits[|visits| - 1];
      StretchStage(st, es, init, p);
      forall v
        ensures v in visits <==> v in init || v == last
      {
        assert visits == init + [last];
      }
    }
  }

  lemma CreatedThenPinned(es: EntryMap, before: seq<Visit>, after: seq<Visit>, u: Visit, v: Visit, p: string)
    requires p in es && u in before && Creates(es, u, p) && v in after && Pins(es, v)
    ensures StageAfter(Absent, es, before + after, p).AsDirectory?
  {
    hide StageAfter, Creates, Pins;
    StageConcat(Absent, es, before, after, p);
    StretchStage(Absent, es, before, p);
    StretchStage(StageAfter(Absent, es, before, p), es, after, p);
  }

  // Nothing is pinned once p may exist; one visit in the middle may do both, pinning first.
  lemma PinnedThenCreated(es: EntryMap, before: seq<Visit>, middle: seq<Visit>, after: seq<Visit>, p: string)
    requires p in es && |middle| <= 1
    requires forall v | v in before :: !Creates(es, v, p)
    requires forall v | v in after :: !Pins(es, v)
    ensures !StageAfter(Absent, es, before + middle + after, p).AsDirectory?
  {
    hide Creates, Pins;
    StageConcat(Absent, es, before + middle, after, p);
    StageConcat(Absent, es, before, middle, p);
    StretchStage(Absent, es, before, p);
    var st := StageAfter(Absent, es, before + middle, p);
    assert middle != [] ==> middle[..0] == [];
    assert !st.AsDirectory?;
    StretchStage(st, es, after, p);
  }

  // ---- Visits of concatenated orders ----

  lemma {:induction false} PathsOfConcat(es: EntryMap, order: seq<string>, more: seq<string>, a: string)
    requires forall k | k in order + more :: k in es
    ensures (forall k | k in order :: k in es) && (forall k | k in more :: k in es)
    ensures PathsOf(es, order + more, true, a) == PathsOf(es, order, true, a) + PathsOf(es, more, true, a)
  {
    hide Occurrences;
    assert forall k | k in order || k in more :: k in order + more;
    if more == [] {
      assert order + more == order;
    } else {
      var all, init := order + more, more[..|more| - 1];
      assert all[..|all| - 1] == order + init;
      PathsOfConcat(es, order, init, a);
    }
  }

  lemma PathsOfOne(es: EntryMap, q: string, a: string)
    requires q in es
    ensures PathsOf(es, [q], true, a) == Occurrences(es[q].producers, a, q)
  {
    assert [q][..0] == [] && PathsOf(es, [], true, a) == [];
  }

  lemma {:induction false} OccursOnce(apps: seq<string>, a: string, path: string)
    requires NoDuplicates(apps)
    ensures |Occurrences(apps, a, path)| <= 1
  {
    if apps != [] {
      var init, last := apps[..|apps| - 1], apps[|apps| - 1];
      OccursOnce(init, a, path);
      if last == a {
        OccursNever(init, a, path);
      }
    }
  }

  lemma {:induction false} OccursNever(apps: seq<string>, a: string, path: string)
    requires a !in apps
    ensures Occurrences(apps, a, path) == []
  {
    if apps != [] {
      OccursNever(apps[..|apps| - 1], a, path);
    }
  }

  lemma {:induction false} VisitsConcat(es: EntryMap, order: seq<string>, apps: seq<string>, more: seq<string>)
    requires forall k | k in order :: k in es
    ensures Visits(es, order, apps + more) == Visits(es, order, apps) + Visits(es, order, more)
  {
    hide AppVisits;
    if more == [] {
      assert apps + more == apps;
    } else {
      var all, init := apps + more, more[..|more| - 1];
      assert all[..|all| - 1] == apps + init;
      VisitsConcat(es, order, apps, init);
    }
  }

  lemma VisitsOne(es: EntryMap, order: seq<string>, a: string)
    requires forall k | k in order :: k in es
    ensures Visits(es, order, [a]) == AppVisits(es, order, a)
  {
    assert [a][..0] == [] && Visits(es, order, []) == [];
  }

  lemma ItemVisitsOf(a: string, paths: seq<string>)
    ensures forall v :: v in ItemVisits(a, paths) <==> v.Item? && v.app == a && v.q in paths
  {
    forall v
      ensures v in ItemVisits(a, paths) <==> v.Item? && v.app == a && v.q in paths
    {
      if v.Item? && v.app == a && v.q in paths {
        var i :| 0 <= i < |paths| && paths[i] == v.q;
        assert ItemVisits(a, paths)[i] == v;
      }
    }
  }

  lemma {:induction false} VisitsOf(es: EntryMap, order: seq<string>, apps: seq<string>)
    requires forall k | k in order :: k in es
    ensures forall v :: v in Visits(es, order, apps) <==>
      v.app in apps && (v.Item? ==> v.q in order && v.app in es[v.q].producers)
  {
    if apps != [] {
      var init, last := apps[..|apps| - 1], apps[|apps| - 1];
      VisitsOf(es, order, init);
      AppVisitsOf(es, order, last);
      hide AppVisits;
      assert apps == init + [last];
    }
  }

  lemma AppVisitsOf(es: EntryMap, order: seq<string>, a: string)
    requires forall k | k in order :: k in es
    ensures forall v :: v in AppVisits(es, order, a) <==>
      v.app == a && (v.Item? ==> v.q in order && v.app in es[v.q].producers)
  {
    hide PathsOf;
    PathsOfKeys(es, order, true, a);
    ItemVisitsOf(a, PathsOf(es, order, true, a));
    hide ItemVisits;
  }

  // ---- The visits tell the kind ----

  function StageOf(c: Cell): Stage {
    if c.entry.None? then Absent else if c.entry.value.isFile then AsFile else AsDirectory
  }

  // A cell is occupied once its path is created, and not before.
  lemma {:induction false} CellPresence(c: Cell, acts: seq<Action>, p: string)
    requires p != "" && Drop(p) !in acts
    ensures CellRun(c, acts, p).entry.Some? <==> c.entry.Some? || New(p) in acts
  {
    if acts != [] {
      var init, last := acts[..|acts| - 1], acts[|acts| - 1];
      assert acts == init + [last];
      CellPresence(c, init, p);
    }
  }

  lemma ItemStage(c: Cell, es: EntryMap, a: string, q: string, p: string)
    requires p != "" && q != "" && p != q && p in es && q in es && es[q].producers != []
    ensures StageOf(CellRun(c, PathActions(ItemFor(q, es[q]), q), p)) == VisitStage(StageOf(c), es, Item(a, q), p)
  {
    hide CellRun, PathActions, Dependencies, CommittedText;
    var item := ItemFor(q, es[q]);
    PathCell(c, item, q, p);
    PathCreates(item, q, p);
    CellPresence(c, PathActions(item, q), p);
  }

  lemma {:induction false} ItemsStage(c: Cell, es: EntryMap, a: string, paths: seq<string>, p: string)
    requires p != "" && p in es && p !in paths
    requires forall q | q in paths :: q != "" && q in es && es[q].producers != []
    ensures StageOf(CellRun(c, StreamActions(ItemsFor(es, paths)), p)) == StageAfter(StageOf(c), es, ItemVisits(a, paths), p)
  {
    hide CellStep, VisitStage, PathActions, CommittedText, StageOf;
    if paths != [] {
      var init, last := paths[..|paths| - 1], paths[|paths| - 1];
      assert last in paths && forall q | q in init :: q in paths;
      ItemsStage(c, es, a, init, p);
      var item := ItemFor(last, es[last]);
      CellRunConcat(c, StreamActions(ItemsFor(es, init)), PathActions(item, last), p);
      ItemStage(CellRun(c, StreamActions(ItemsFor(es, init)), p), es, a, last, p);
      OneItem(item, last);
      assert ItemVisits(a, paths)[..|init|] == ItemVisits(a, init);
      assert StreamActions(ItemsFor(es, paths)) == StreamActions(ItemsFor(es, init)) + ItemActions(item, [last]);
    }
  }

  lemma OneItem(item: StreamItem, q: string)
    ensures ItemActions(item, [q]) == PathActions(item, q)
  {
    hide PathActions;
    assert [q][..0] == [] && ItemActions(item, []) == [];
  }

  ghost predicate Unproduced(es: EntryMap, p: string) {
    "" !in es && p in es && es[p].producers == []
  }

  lemma ListStage(c: Cell, es: EntryMap, order: seq<string>, a: string, p: string)
    requires Unproduced(es, p) && Enumerates(order, es.Keys)
    ensures var inputs := PathsOf(es, order, false, a);
      StageOf(CellRun(c, ListActions(inputs, AddConsumer(Strip(a))), p)) == VisitStage(StageOf(c), es, Inputs(a), p)
  {
    hide CellRun, ListActions, Strip, PathsOf;
    PathsOfKeys(es, order, false, a);
    ListCell(c, PathsOf(es, order, false, a), AddConsumer(Strip(a)), p);
  }

  lemma AppStage(c: Cell, es: EntryMap, order: seq<string>, a: string, p: string)
    requires Unproduced(es, p) && Enumerates(order, es.Keys)
    ensures StageOf(CellRun(c, AppActions(ProducingApp(es, order, a)), p)) == StageAfter(StageOf(c), es, AppVisits(es, order, a), p)
  {
    hide CellRun, ListActions, StreamActions, ItemsFor, Strip, PathsOf, VisitStage, StageOf;
    PathsOfKeys(es, order, true, a);
    var inputs, outputs := PathsOf(es, order, false, a), PathsOf(es, order, true, a);
    var read, written := ListActions(inputs, AddConsumer(Strip(a))), ListActions(outputs, AddProducer(Strip(a)));
    var stream := StreamActions(ItemsFor(es, outputs));
    CellRunConcat(c, read + written, stream, p);
    CellRunConcat(c, read, written, p);
    var c1 := CellRun(c, read, p);
    ListStage(c, es, order, a, p);
    ListCell(c1, outputs, AddProducer(Strip(a)), p);
    ItemsStage(c1, es, a, outputs, p);
    StageConcat(StageOf(c), es, [Inputs(a)], ItemVisits(a, outputs), p);
    assert [Inputs(a)][..0] == [];
  }

  lemma {:induction false} ProducersStage(es: EntryMap, order: seq<string>, outApps: seq<string>, p: string)
    requires Unproduced(es, p) && Enumerates(order, es.Keys)
    ensures StageOf(CellRun(EMPTY_CELL, GraphActions(ProducingApps(es, order, outApps)), p))
         == StageAfter(Absent, es, Visits(es, order, outApps), p)
  {
    hide CellStep, VisitStage, AppActions, ProducingApp, AppVisits, StageOf;
    if outApps == [] {
      EmptyStage();
    } else {
      var init, last := outApps[..|outApps| - 1], outApps[|outApps| - 1];
      ProducersStage(es, order, init, p);
      var graph := GraphActions(ProducingApps(es, order, init));
      CellRunConcat(EMPTY_CELL, graph, AppActions(ProducingApp(es, order, last)), p);
      AppStage(CellRun(EMPTY_CELL, graph, p), es, order, last, p);
      StageConcat(Absent, es, Visits(es, order, init), AppVisits(es, order, last), p);
      GraphSnoc(ProducingApps(es, order, init), ProducingApp(es, order, last));
    }
  }

  lemma EmptyStage()
    ensures StageOf(EMPTY_CELL) == Absent
  {
  }

  lemma GraphSnoc(apps: seq<App>, app: App)
    ensures GraphActions(apps + [app]) == GraphActions(apps) + AppActions(app)
  {
    hide AppActions;
    assert (apps + [app])[..|apps|] == apps;
  }

  lemma {:induction false} GraphConcat(apps: seq<App>, more: seq<App>)
    ensures GraphActions(apps + more) == GraphActions(apps) + GraphActions(more)
  {
    hide AppActions;
    if more == [] {
      assert apps + more == apps;
    } else {
      var init, last := more[..|more| - 1], more[|more| - 1];
      GraphConcat(apps, init);
      GraphSnoc(apps + init, last);
      GraphSnoc(init, last);
      assert apps + more == apps + init + [last] && more == init + [last];
    }
  }

  // Applications without items leave the kind alone.
  lemma {:induction false} ConsumersCell(c: Cell, apps: seq<App>, p: string)
    requires p != "" && forall app | app in apps :: app.streaming == []
    ensures Base(CellRun(c, GraphActions(apps), p)).isFile == Base(c).isFile
    ensures CellRun(c, GraphActions(apps), p).raised == c.raised
  {
    hide AppActions, CellStep, Base;
    if apps != [] {
      var init, last := apps[..|apps| - 1], apps[|apps| - 1];
      assert apps == init + [last] && last in apps;
      ConsumersCell(c, init, p);
      CellRunConcat(c, GraphActions(init), AppActions(last), p);
      ConsumerCell(CellRun(c, GraphActions(init), p), last, p);
    }
  }

  lemma ConsumerCell(c: Cell, app: App, p: string)
    requires p != "" && app.streaming == []
    ensures Base(CellRun(c, AppActions(app), p)).isFile == Base(c).isFile
    ensures CellRun(c, AppActions(app), p).raised == c.raised
  {
    hide AppActions, CellRun, Base, Strip;
    AppCell(c, app, p, Base(c), true);
    assert NoPins([]);
  }

  lemma {:induction false} ConsumersStream(es: EntryMap, order: seq<string>, inApps: seq<string>, outApps: seq<string>)
    requires forall k | k in order :: k in es
    ensures forall app | app in ConsumingApps(es, order, inApps, outApps) :: app.streaming == []
  {
    hide PathsOf;
    if inApps != [] {
      ConsumersStream(es, order, inApps[..|inApps| - 1], outApps);
    }
  }

  // The graph of a dump makes p a directory exactly when its visits do.
  lemma {:induction false} GraphKind(es: EntryMap, order: seq<string>, outApps: seq<string>, inApps: seq<string>, p: string)
    requires Unproduced(es, p) && DumpOrder(es, order, outApps, inApps)
    ensures var c := CellRun(EMPTY_CELL, GraphActions(Dump(es, "", order, outApps, inApps).ioGraph), p);
      Base(c).isFile <==> !StageAfter(Absent, es, Visits(es, order, outApps), p).AsDirectory?
  {
    hide CellRun, GraphActions, ProducingApps, ConsumingApps, StageAfter, Visits, Selected, AppNames;
    var producing, consuming := ProducingApps(es, order, outApps), ConsumingApps(es, order, inApps, outApps);
    GraphConcat(producing, consuming);
    CellRunConcat(EMPTY_CELL, GraphActions(producing), GraphActions(consuming), p);
    ConsumersStream(es, order, inApps, outApps);
    ConsumersCell(CellRun(EMPTY_CELL, GraphActions(producing), p), consuming, p);
    ProducersStage(es, order, outApps, p);
  }

  // So does parsing the whole document.
  lemma {:induction false} ParsedKind(es: EntryMap, name: string, order: seq<string>, outApps: seq<string>, inApps: seq<string>,
                   memoryOnly: bool, s: Store, p: string)
    requires Unproduced(es, p) && DumpOrder(es, order, outApps, inApps)
    requires var doc := Dump(es, name, order, outApps, inApps);
      Run(EMPTY_STORE, DocumentActions(doc, memoryOnly), s) && Separated(doc) && NoChildMentioned(doc, p)
    requires p in s.entries
    ensures s.entries[p].isFile <==> !StageAfter(Absent, es, Visits(es, order, outApps), p).AsDirectory?
  {
    hide Run, GraphActions, TailActions, CellRun, Mentions, Separated, NoChildMentioned, ProducingApps, ConsumingApps,
      Selected, AppNames, StageAfter, Visits;
    var doc := Dump(es, name, order, outApps, inApps);
    GraphKind(es, order, outApps, inApps, p);
    assert Dump(es, "", order, outApps, inApps).ioGraph == doc.ioGraph;
    CellRunConcat(EMPTY_CELL, GraphActions(doc.ioGraph), TailActions(doc, memoryOnly), p);
    GraphCell(doc.ioGraph, p);
    TailCell(CellRun(EMPTY_CELL, GraphActions(doc.ioGraph), p), doc, memoryOnly, p);
    SeparatedActions(doc, memoryOnly, p);
    RunProjects(DocumentActions(doc, memoryOnly), s, p);
  }

  // ---- Every order ----

  lemma SplitAt(xs: seq<string>, x: string) returns (before: seq<string>, after: seq<string>)
    requires NoDuplicates(xs) && x in xs
    ensures xs == before + [x] + after && x !in before && x !in after
  {
    var i :| 0 <= i < |xs| && xs[i] == x;
    before, after := xs[..i], xs[i + 1..];
  }

  // All pins come before p may be met: those of the applications before y, then y's, where q is the
  // last that may be both.
  lemma {:induction false} AllPinsFirst(es: EntryMap, p: string, keys: seq<string>, q: string, moreKeys: seq<string>,
                     apps: seq<string>, y: string, moreApps: seq<string>)
    requires p in es && q in es && NoDuplicates(es[q].producers)
    requires forall k | k in keys + [q] + moreKeys :: k in es
    requires forall a | a in apps + [y] :: a !in es[p].consumers
    requires forall a, k | a in apps && k in es && a in es[k].producers :: !DependsOn(es, k, p)
    requires forall k | k in keys && k in es && y in es[k].producers :: !DependsOn(es, k, p)
    requires forall k | k in moreKeys && k in es && y in es[k].producers :: !Counted(es, k)
    requires forall a, k | a in moreApps && k in es && a in es[k].producers :: !Counted(es, k)
    ensures !StageAfter(Absent, es, Visits(es, keys + [q] + moreKeys, apps + [y] + moreApps), p).AsDirectory?
  {
    var order := keys + [q] + moreKeys;
    assert forall k | k in keys || k == q || k in moreKeys :: k in order;
    assert forall a | a in apps || a == y :: a in apps + [y];
    hide StageAfter, Visits, PathsOf, Occurrences, Counted, DependsOn, NoDuplicates;
    var before, middle, after := SplitVisits(es, keys, q, moreKeys, apps, y, moreApps);
    VisitsOf(es, order, apps);
    VisitsOf(es, order, moreApps);
    PathsOfKeys(es, keys, true, y);
    PathsOfKeys(es, moreKeys, true, y);
    ItemVisitsOf(y, PathsOf(es, keys, true, y));
    ItemVisitsOf(y, PathsOf(es, moreKeys, true, y));
    hide AppVisits, ItemVisits;
    forall v | v in before
      ensures !Creates(es, v, p)
    {
      assert v in Visits(es, order, apps) || v == Inputs(y) || v in ItemVisits(y, PathsOf(es, keys, true, y));
    }
    forall v | v in after
      ensures !Pins(es, v)
    {
      assert v in ItemVisits(y, PathsOf(es, moreKeys, true, y)) || v in Visits(es, order, moreApps);
    }
    hide Creates, Pins;
    PinnedThenCreated(es, before, middle, after, p);
  }

  lemma SplitVisits(es: EntryMap, keys: seq<string>, q: string, moreKeys: seq<string>,
                    apps: seq<string>, y: string, moreApps: seq<string>)
    returns (before: seq<Visit>, middle: seq<Visit>, after: seq<Visit>)
    requires q in es && NoDuplicates(es[q].producers)
    requires forall k | k in keys + [q] + moreKeys :: k in es
    ensures (forall k | k in keys :: k in es) && (forall k | k in moreKeys :: k in es)
    ensures before == Visits(es, keys + [q] + moreKeys, apps) + ([Inputs(y)] + ItemVisits(y, PathsOf(es, keys, true, y)))
    ensures |middle| <= 1
    ensures after == ItemVisits(y, PathsOf(es, moreKeys, true, y)) + Visits(es, keys + [q] + moreKeys, moreApps)
    ensures Visits(es, keys + [q] + moreKeys, apps + [y] + moreApps) == before + middle + after
  {
    var order := keys + [q] + moreKeys;
    assert forall k | k in keys || k == q || k in moreKeys :: k in order;
    hide Visits, AppVisits, PathsOf, ItemVisits, NoDuplicates;
    VisitsConcat(es, order, apps + [y], moreApps);
    VisitsConcat(es, order, apps, [y]);
    VisitsOne(es, order, y);
    middle := SplitApp(es, keys, q, moreKeys, y);
    var first, last := ItemVisits(y, PathsOf(es, keys, true, y)), ItemVisits(y, PathsOf(es, moreKeys, true, y));
    before := Visits(es, order, apps) + ([Inputs(y)] + first);
    after := last + Visits(es, order, moreApps);
    Regroup(Visits(es, order, apps), [Inputs(y)], first, middle, last, Visits(es, order, moreApps));
  }

  lemma Regroup(a: seq<Visit>, b: seq<Visit>, c: seq<Visit>, d: seq<Visit>, e: seq<Visit>, f: seq<Visit>)
    ensures a + (b + (c + d + e)) + f == (a + (b + c)) + d + (e + f)
  {
  }

  lemma SplitApp(es: EntryMap, keys: seq<string>, q: string, moreKeys: seq<string>, y: string) returns (middle: seq<Visit>)
    requires q in es && NoDuplicates(es[q].producers)
    requires forall k | k in keys + [q] + moreKeys :: k in es
    ensures (forall k | k in keys :: k in es) && (forall k | k in moreKeys :: k in es)
    ensures |middle| <= 1
    ensures AppVisits(es, keys + [q] + moreKeys, y) == [Inputs(y)]
      + (ItemVisits(y, PathsOf(es, keys, true, y)) + middle + ItemVisits(y, PathsOf(es, moreKeys, true, y)))
  {
    assert forall k | k in keys || k == q || k in moreKeys :: k in keys + [q] + moreKeys;
    hide PathsOf, Occurrences, NoDuplicates, ItemVisits;
    PathsOfConcat(es, keys + [q], moreKeys, y);
    PathsOfConcat(es, keys, [q], y);
    PathsOfOne(es, q, y);
    OccursOnce(es[q].producers, y, q);
    var first, second, third := PathsOf(es, keys, true, y), PathsOf(es, [q], true, y), PathsOf(es, moreKeys, true, y);
    ItemVisitsConcat(y, first + second, third);
    ItemVisitsConcat(y, first, second);
    middle := ItemVisits(y, second);
  }

  lemma ItemVisitsConcat(a: string, paths: seq<string>, more: seq<string>)
    ensures ItemVisits(a, paths + more) == ItemVisits(a, paths) + ItemVisits(a, more)
  {
  }

  lemma AppNamed(es: EntryMap, p: string, a: string)
    requires p in es && a in es[p].producers
    ensures a in AppNames(es, true)
  {
    assert a in Apps(es[p], true);
  }

  lemma FileInEveryOrder(es: EntryMap, order: seq<string>, outApps: seq<string>, p: string)
    requires Unproduced(es, p) && StaysFile(es, p)
    requires forall q | q in es :: NoDuplicates(es[q].producers)
    requires Enumerates(order, es.Keys) && Enumerates(outApps, AppNames(es, true))
    ensures !StageAfter(Absent, es, Visits(es, order, outApps), p).AsDirectory?
  {
    hide StageAfter, Visits, AppNames, Counted;
    VisitsOf(es, order, outApps);
    StretchStage(Absent, es, Visits(es, order, outApps), p);
    if !NothingCounted(es) {
      if q :| DependsOn(es, q, p) {
        assert SoleCounted(es, q);
        var y := es[q].producers[0];
        AppNamed(es, q, y);
        var keys, moreKeys := SplitAt(order, q);
        var apps, moreApps := SplitAt(outApps, y);
        OnlySole(es, p, q, y);
        hide DependsOn, SoleCounted, StaysFile;
        AllPinsFirst(es, p, keys, q, moreKeys, apps, y, moreApps);
      }
    }
  }

  lemma OnlySole(es: EntryMap, p: string, q: string, y: string)
    requires Unproduced(es, p) && StaysFile(es, p) && !NothingCounted(es)
    requires DependsOn(es, q, p) && SoleCounted(es, q) && y in es[q].producers
    ensures forall k | DependsOn(es, k, p) :: k == q
    ensures forall k | k in es && Counted(es, k) :: k == q
    ensures forall a | a in es[q].producers :: a == y
    ensures forall a | a in AppNames(es, true) :: a !in es[p].consumers
  {
    hide DependsOn, Counted, AppNames;
  }

  lemma DirectoryInEveryOrder(es: EntryMap, order: seq<string>, outApps: seq<string>, p: string)
    requires Unproduced(es, p) && BecomesDirectory(es, p)
    requires Enumerates(order, es.Keys) && Enumerates(outApps, AppNames(es, true))
    ensures StageAfter(Absent, es, Visits(es, order, outApps), p).AsDirectory?
  {
    hide StageAfter, Visits, AppNames, Counted, DependsOn;
    if a, d :| a in es[p].consumers && ProducesCounted(es, a, d) {
      ConsumedThenPinned(es, order, outApps, a, d, p);
    } else if a, b :| a != b && Entangled(es, a, p) && Entangled(es, b, p) {
      EntangledPins(es, order, outApps, a, b, p);
    } else {
      var a, q, d :| q != d && ProducesCounted(es, a, q) && ProducesCounted(es, a, d)
        && DependsOn(es, q, p) && DependsOn(es, d, p);
      TwoCountedPin(es, order, outApps, a, q, d, p);
    }
  }

  lemma TwoCountedPin(es: EntryMap, order: seq<string>, outApps: seq<string>, a: string, q: string, d: string, p: string)
    requires Unproduced(es, p) && Enumerates(order, es.Keys) && Enumerates(outApps, AppNames(es, true))
    requires q != d && ProducesCounted(es, a, q) && ProducesCounted(es, a, d)
    requires DependsOn(es, q, p) && DependsOn(es, d, p)
    ensures StageAfter(Absent, es, Visits(es, order, outApps), p).AsDirectory?
  {
    hide StageAfter, Visits, AppNames, DependsOn;
    AppNamed(es, q, a);
    var keys, moreKeys := SplitAt(order, q);
    assert order == keys + ([q] + moreKeys) && order == (keys + [q]) + moreKeys;
    if d in moreKeys {
      DependedThenPinned(es, keys + [q], moreKeys, outApps, a, q, d, p);
    } else {
      DependedThenPinned(es, keys, [q] + moreKeys, outApps, a, d, q, p);
    }
  }

  lemma ConsumedThenPinned(es: EntryMap, order: seq<string>, outApps: seq<string>, a: string, d: string, p: string)
    requires Unproduced(es, p) && Enumerates(order, es.Keys) && Enumerates(outApps, AppNames(es, true))
    requires a in es[p].consumers && ProducesCounted(es, a, d)
    ensures StageAfter(Absent, es, Visits(es, order, outApps), p).AsDirectory?
  {
    hide StageAfter, Visits, PathsOf, AppNames, NoDuplicates;
    AppNamed(es, d, a);
    var apps, moreApps := SplitAt(outApps, a);
    VisitsConcat(es, order, apps + [a], moreApps);
    VisitsConcat(es, order, apps, [a]);
    VisitsOne(es, order, a);
    PathsOfKeys(es, order, true, a);
    var items := ItemVisits(a, PathsOf(es, order, true, a));
    ItemVisitsOf(a, PathsOf(es, order, true, a));
    hide ItemVisits;
    var before, after := Visits(es, order, apps) + [Inputs(a)], items + Visits(es, order, moreApps);
    assert Visits(es, order, outApps) == before + after;
    CreatedThenPinned(es, before, after, Inputs(a), Item(a, d), p);
  }

  // Application a before application b.
  lemma AppBeforeApp(es: EntryMap, order: seq<string>, apps: seq<string>, moreApps: seq<string>, u: Visit, v: Visit, p: string)
    requires Unproduced(es, p) && Enumerates(order, es.Keys)
    requires u.app in apps && (u.Item? ==> u.q in es && u.app in es[u.q].producers) && Creates(es, u, p)
    requires v.app in moreApps && v.Item? && v.q in es && v.app in es[v.q].producers && Pins(es, v)
    ensures StageAfter(Absent, es, Visits(es, order, apps + moreApps), p).AsDirectory?
  {
    hide StageAfter, Visits, NoDuplicates, Creates, Pins;
    VisitsConcat(es, order, apps, moreApps);
    VisitsOf(es, order, apps);
    VisitsOf(es, order, moreApps);
    CreatedThenPinned(es, Visits(es, order, apps), Visits(es, order, moreApps), u, v, p);
  }

  lemma EntangledPins(es: EntryMap, order: seq<string>, outApps: seq<string>, a: string, b: string, p: string)
    requires Unproduced(es, p) && Enumerates(order, es.Keys) && Enumerates(outApps, AppNames(es, true))
    requires a != b && Entangled(es, a, p) && Entangled(es, b, p)
    ensures StageAfter(Absent, es, Visits(es, order, outApps), p).AsDirectory?
  {
    AppsEntangled(es, a, p);
    AppsEntangled(es, b, p);
    hide StageAfter, Visits, AppNames, Entangled;
    var apps, moreApps := SplitAt(outApps, a);
    assert outApps == apps + ([a] + moreApps) && outApps == (apps + [a]) + moreApps;
    if b in moreApps {
      EntangledInOrder(es, order, apps + [a], moreApps, a, b, p);
    } else {
      EntangledInOrder(es, order, apps, [a] + moreApps, b, a, p);
    }
  }

  lemma AppsEntangled(es: EntryMap, a: string, p: string)
    requires Entangled(es, a, p)
    ensures a in AppNames(es, true)
  {
    hide AppNames;
    var q :| q in es && DependsOn(es, q, p) && a in es[q].producers;
    AppNamed(es, q, a);
  }

  lemma EntangledInOrder(es: EntryMap, order: seq<string>, apps: seq<string>, moreApps: seq<string>, a: string, b: string, p: string)
    requires Unproduced(es, p) && Enumerates(order, es.Keys)
    requires a in apps && b in moreApps && Entangled(es, a, p) && Entangled(es, b, p)
    ensures StageAfter(Absent, es, Visits(es, order, apps + moreApps), p).AsDirectory?
  {
    hide StageAfter, Visits, DependsOn, NoDuplicates;
    var q :| q in es && DependsOn(es, q, p) && a in es[q].producers;
    var e :| e in es && ProducesCounted(es, b, e);
    AppBeforeApp(es, order, apps, moreApps, Item(a, q), Item(b, e), p);
  }

  // The item of q before that of d, both written by a.
  lemma DependedThenPinned(es: EntryMap, keys: seq<string>, moreKeys: seq<string>, outApps: seq<string>,
                           a: string, q: string, d: string, p: string)
    requires Unproduced(es, p) && a in outApps && NoDuplicates(outApps)
    requires forall k | k in keys + moreKeys :: k in es
    requires q in keys && a in es[q].producers && DependsOn(es, q, p)
    requires d in moreKeys && d in es && a in es[d].producers && Counted(es, d)
    ensures StageAfter(Absent, es, Visits(es, keys + moreKeys, outApps), p).AsDirectory?
  {
    hide StageAfter, Visits, PathsOf, Counted, DependsOn;
    var order := keys + moreKeys;
    var apps, moreApps := SplitAt(outApps, a);
    VisitsConcat(es, order, apps + [a], moreApps);
    VisitsConcat(es, order, apps, [a]);
    VisitsOne(es, order, a);
    PathsOfConcat(es, keys, moreKeys, a);
    PathsOfKeys(es, keys, true, a);
    PathsOfKeys(es, moreKeys, true, a);
    var first, second := ItemVisits(a, PathsOf(es, keys, true, a)), ItemVisits(a, PathsOf(es, moreKeys, true, a));
    ItemVisitsOf(a, PathsOf(es, keys, true, a));
    ItemVisitsOf(a, PathsOf(es, moreKeys, true, a));
    assert ItemVisits(a, PathsOf(es, order, true, a)) == first + second;
    hide ItemVisits;
    var before, after := Visits(es, order, apps) + [Inputs(a)] + first, second + Visits(es, order, moreApps);
    assert Visits(es, order, outApps) == before + after;
    CreatedThenPinned(es, before, after, Item(a, q), Item(a, d), p);
  }

  // ---- Some order ----

  lemma {:induction false} Enumeration(s: set<string>) returns (xs: seq<string>)
    ensures Enumerates(xs, s)
  {
    if s == {} {
      xs := [];
    } else {
      var x :| x in s;
      var rest := Enumeration(s - {x});
      xs := [x] + rest;
    }
  }

  lemma EnumeratesBoth(xs: seq<string>, s: set<string>, ys: seq<string>, t: set<string>)
    requires Enumerates(xs, s) && Enumerates(ys, t) && s !! t
    ensures Enumerates(xs + ys, s + t)
  {
    forall i, j | 0 <= i < j < |xs + ys|
      ensures (xs + ys)[i] != (xs + ys)[j]
    {
      if i < |xs| <= j {
        assert xs[i] in s && ys[j - |xs|] in t;
      }
    }
  }

  lemma EnumerationFrom(all: set<string>, x: string) returns (rest: seq<string>)
    requires x in all
    ensures Enumerates([x] + rest, all)
    ensures forall y :: y in rest <==> y in all && y != x
  {
    rest := Enumeration(all - {x});
    EnumeratesBoth([x], {x}, rest, all - {x});
    assert {x} + (all - {x}) == all;
  }

  // The elements of first, of which x is the last, then the others.
  lemma EnumerationAround(all: set<string>, first: set<string>, x: string) returns (before: seq<string>, after: seq<string>)
    requires first <= all && x in first
    ensures Enumerates(before + [x] + after, all)
    ensures Enumerates(before, first - {x}) && Enumerates(after, all - first)
  {
    before := Enumeration(first - {x});
    after := Enumeration(all - first);
    EnumeratesMore(before, first - {x}, x);
    EnumeratesBoth(before + [x], (first - {x}) + {x}, after, all - first);
    assert (first - {x}) + {x} + (all - first) == all;
  }

  // Counts are fixed by produced entries only, and no list names an application twice.
  ghost predicate Regular(es: EntryMap) {
    && (forall d | d in es && Counted(es, d) :: es[d].producers != [])
    && (forall q | q in es :: NoDuplicates(es[q].producers))
  }

  // When neither condition for keeping the kind holds, some order changes it.
  lemma FileLostInSomeOrder(es: EntryMap, p: string) returns (order: seq<string>, outApps: seq<string>)
    requires Unproduced(es, p) && Regular(es) && !StaysFile(es, p)
    ensures Enumerates(order, es.Keys) && Enumerates(outApps, AppNames(es, true))
    ensures StageAfter(Absent, es, Visits(es, order, outApps), p).AsDirectory?
  {
    hide StageAfter, Visits, AppNames, Enumerates;
    if a :| a in es[p].consumers && a in AppNames(es, true) {
      var d :| d in es && Counted(es, d);
      order, outApps := ConsumedFirst(es, p, a, d);
    } else {
      var q :| DependsOn(es, q, p) && !SoleCounted(es, q);
      var y, x, d := PinBeside(es, p, q);
      order, outApps := DependedFirst(es, p, q, y, d, x);
    }
  }

  lemma ConsumedFirst(es: EntryMap, p: string, a: string, d: string) returns (order: seq<string>, outApps: seq<string>)
    requires Unproduced(es, p) && Regular(es)
    requires a in es[p].consumers && a in AppNames(es, true) && d in es && Counted(es, d)
    ensures Enumerates(order, es.Keys) && Enumerates(outApps, AppNames(es, true))
    ensures StageAfter(Absent, es, Visits(es, order, outApps), p).AsDirectory?
  {
    hide StageAfter, Visits, AppNames, Counted;
    order := Enumeration(es.Keys);
    var x := es[d].producers[0];
    AppNamed(es, d, x);
    if a in es[d].producers {
      outApps := Enumeration(AppNames(es, true));
      assert ProducesCounted(es, a, d);
      ConsumedThenPinned(es, order, outApps, a, d, p);
    } else {
      var moreApps := EnumerationFrom(AppNames(es, true), a);
      outApps := [a] + moreApps;
      AppBeforeApp(es, order, [a], moreApps, Inputs(a), Item(x, d), p);
    }
  }

  // A pin that is not the item of q written by y.
  lemma PinBeside(es: EntryMap, p: string, q: string) returns (y: string, x: string, d: string)
    requires Regular(es) && !NothingCounted(es) && DependsOn(es, q, p) && !SoleCounted(es, q)
    ensures y in es[q].producers && ProducesCounted(es, x, d) && (x != y || d != q)
  {
    y := es[q].producers[0];
    if d' :| d' in es && Counted(es, d') && d' != q {
      d := d';
      x := es[d].producers[0];
    } else {
      d := q;
      x := es[q].producers[1];
    }
  }

  lemma DependedFirst(es: EntryMap, p: string, q: string, y: string, d: string, x: string)
    returns (order: seq<string>, outApps: seq<string>)
    requires Unproduced(es, p) && DependsOn(es, q, p) && y in es[q].producers
    requires ProducesCounted(es, x, d) && (x != y || d != q)
    ensures Enumerates(order, es.Keys) && Enumerates(outApps, AppNames(es, true))
    ensures StageAfter(Absent, es, Visits(es, order, outApps), p).AsDirectory?
  {
    hide StageAfter, Visits, AppNames, DependsOn, NoDuplicates;
    DependencyCreates(es, y, q, p);
    AppNamed(es, q, y);
    AppNamed(es, d, x);
    if x != y {
      order := Enumeration(es.Keys);
      var moreApps := EnumerationFrom(AppNames(es, true), y);
      outApps := [y] + moreApps;
      AppBeforeApp(es, order, [y], moreApps, Item(y, q), Item(x, d), p);
    } else {
      outApps := Enumeration(AppNames(es, true));
      var moreKeys := EnumerationFrom(es.Keys, q);
      order := [q] + moreKeys;
      DependedThenPinned(es, [q], moreKeys, outApps, y, q, d, p);
    }
  }

  lemma DependencyCreates(es: EntryMap, y: string, q: string, p: string)
    requires DependsOn(es, q, p) && p in es
    ensures q in es && Creates(es, Item(y, q), p)
  {
  }

  function CountingApps(es: EntryMap): set<string> {
    set d, a | d in es && Counted(es, d) && a in es[d].producers :: a
  }

  lemma DirectoryLostInSomeOrder(es: EntryMap, p: string) returns (order: seq<string>, outApps: seq<string>)
    requires Unproduced(es, p) && Regular(es) && !BecomesDirectory(es, p)
    ensures Enumerates(order, es.Keys) && Enumerates(outApps, AppNames(es, true))
    ensures !StageAfter(Absent, es, Visits(es, order, outApps), p).AsDirectory?
  {
    hide StageAfter, Visits, AppNames;
    if NothingCounted(es) {
      order := Enumeration(es.Keys);
      outApps := Enumeration(AppNames(es, true));
      FileInEveryOrder(es, order, outApps, p);
    } else {
      var y := LastCounting(es, p);
      var q := LastCounted(es, p, y);
      var counted := set d | d in es && Counted(es, d);
      CountingNamed(es);
      var apps, moreApps := EnumerationAround(AppNames(es, true), CountingApps(es), y);
      var keys, moreKeys := EnumerationAround(es.Keys, counted, q);
      order, outApps := keys + [q] + moreKeys, apps + [y] + moreApps;
      PinsFit(es, p, keys, q, moreKeys, apps, y, moreApps);
      hide BecomesDirectory, Counted, DependsOn;
      AllPinsFirst(es, p, keys, q, moreKeys, apps, y, moreApps);
    }
  }

  lemma CountingNamed(es: EntryMap)
    ensures CountingApps(es) <= AppNames(es, true)
  {
    hide AppNames;
    forall d, a | d in es && Counted(es, d) && a in es[d].producers
      ensures a in AppNames(es, true)
    {
      AppNamed(es, d, a);
    }
  }

  // The counting application that must come last: the entangled one, if any.
  lemma LastCounting(es: EntryMap, p: string) returns (y: string)
    requires Unproduced(es, p) && Regular(es) && !BecomesDirectory(es, p) && !NothingCounted(es)
    ensures y in CountingApps(es)
    ensures forall a | Entangled(es, a, p) :: a == y
  {
    hide DependsOn;
    if a :| Entangled(es, a, p) {
      y := a;
      var d :| d in es && ProducesCounted(es, a, d);
      assert d in es && Counted(es, d) && a in es[d].producers;
    } else {
      var d :| d in es && Counted(es, d);
      y := es[d].producers[0];
      assert y in es[d].producers;
    }
  }

  // And the counted directory that must come last among those it produces.
  lemma LastCounted(es: EntryMap, p: string, y: string) returns (q: string)
    requires Unproduced(es, p) && !BecomesDirectory(es, p) && !NothingCounted(es)
    ensures q in es && Counted(es, q)
    ensures forall d | ProducesCounted(es, y, d) && DependsOn(es, d, p) :: d == q
  {
    hide DependsOn;
    if d :| ProducesCounted(es, y, d) && DependsOn(es, d, p) {
      q := d;
    } else {
      q :| q in es && Counted(es, q);
    }
  }

  lemma PinsFit(es: EntryMap, p: string, keys: seq<string>, q: string, moreKeys: seq<string>,
                apps: seq<string>, y: string, moreApps: seq<string>)
    requires Unproduced(es, p) && !BecomesDirectory(es, p) && y in CountingApps(es)
    requires forall a | Entangled(es, a, p) :: a == y
    requires forall d | ProducesCounted(es, y, d) && DependsOn(es, d, p) :: d == q
    requires Enumerates(keys, (set d | d in es && Counted(es, d)) - {q})
    requires Enumerates(moreKeys, es.Keys - (set d | d in es && Counted(es, d)))
    requires Enumerates(apps, CountingApps(es) - {y}) && Enumerates(moreApps, AppNames(es, true) - CountingApps(es))
    ensures forall a | a in apps + [y] :: a !in es[p].consumers
    ensures forall a, k | a in apps && k in es && a in es[k].producers :: !DependsOn(es, k, p)
    ensures forall k | k in keys && k in es && y in es[k].producers :: !DependsOn(es, k, p)
    ensures forall k | k in moreKeys && k in es && y in es[k].producers :: !Counted(es, k)
    ensures forall a, k | a in moreApps && k in es && a in es[k].producers :: !Counted(es, k)
  {
    hide DependsOn, AppNames, NoDuplicates;
    forall a | a in CountingApps(es)
      ensures a !in es[p].consumers
      ensures forall k | k in es && a in es[k].producers && DependsOn(es, k, p) :: a == y
    {
      var d :| d in es && Counted(es, d) && a in es[d].producers;
      assert ProducesCounted(es, a, d);
      forall k | k in es && a in es[k].producers && DependsOn(es, k, p)
        ensures a == y
      {
        assert Entangled(es, a, p);
      }
    }
  }
}
