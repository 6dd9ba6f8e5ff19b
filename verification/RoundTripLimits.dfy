// The other half of the round trip: an engine it holds for is well formed. Where a fixed file count
// meets an entry of another kind, the proof exhibits the traversal order that loses the kind.
module RoundTripLimits {
  import opened Text
  import opened Glob
  import opened Paths
  import opened Entries
  import opened Store
  import opened Projection
  import opened Documents
  import opened Meaning
  import opened Serializer
  import opened Kinds
  import opened RoundTrip

  lemma {:induction false} RunExists(s: Store, acts: seq<Action>) returns (s': Store)
    ensures Run(s, acts, s')
  {
    if acts == [] {
      s' := s;
    } else {
      var init, last := acts[..|acts| - 1], acts[|acts| - 1];
      var m := RunExists(s, init);
      s' := StepExists(m, last);
      hide Step;
    }
  }

  lemma StepExists(s: Store, a: Action) returns (s': Store)
    ensures Step(s, a, s')
  {
    hide Created, Edited, EditedAll, Dropped;
    match a
    case New(p) =>
      CreationPossible(s, p);
      s' :| Created(s, p, s');
    case Edit(p, c) => s' := Edited(s, p, c);
    case EditAll(c) => s' := EditedAll(s, c);
    case Raise => s' := s.(allInMemory := true);
    case Drop(p) => s' := Dropped(s, p);
  }

  // ---- A traversal that turns a file into a directory ----

  lemma {:induction false} StreamConcat(items: seq<StreamItem>, more: seq<StreamItem>)
    ensures StreamActions(items + more) == StreamActions(items) + StreamActions(more)
  {
    hide ItemActions;
    if more == [] {
      assert items + more == items;
    } else {
      var all, init := items + more, more[..|more| - 1];
      assert all[..|all| - 1] == items + init;
      StreamConcat(items, init);
    }
  }

  lemma {:induction false} ItemsConcat(es: EntryMap, paths: seq<string>, more: seq<string>)
    requires forall p | p in paths + more :: p in es
    ensures forall p | p in paths :: p in es
    ensures forall p | p in more :: p in es
    ensures ItemsFor(es, paths + more) == ItemsFor(es, paths) + ItemsFor(es, more)
  {
    assert forall p | p in paths :: p in paths + more;
    assert forall p | p in more :: p in paths + more;
    hide ItemFor;
    if more == [] {
      assert paths + more == paths;
    } else {
      var all, init := paths + more, more[..|more| - 1];
      assert all[..|all| - 1] == paths + init;
      ItemsConcat(es, paths, init);
    }
  }

  // After the item of a directory with a fixed count, p is a directory until an item names it.
  lemma PinnedFile(c: Cell, es: EntryMap, before: seq<string>, d: string, after: seq<string>, p: string)
    requires forall q | q in before + [d] + after :: q in es
    requires p != "" && d != "" && d != p && p !in after
    requires !es[d].isFile && es[d].childrenCount != 0
    requires c.entry.Some?
    ensures !Base(CellRun(c, StreamActions(ItemsFor(es, before + [d] + after)), p)).isFile
  {
    hide CellRun, ItemFor, PathActions, FileCount, Base;
    ItemsConcat(es, before + [d], after);
    ItemsConcat(es, before, [d]);
    var a, b, z := ItemsFor(es, before), ItemsFor(es, [d]), ItemsFor(es, after);
    StreamConcat(a + b, z);
    StreamConcat(a, b);
    CellRunConcat(c, StreamActions(a) + StreamActions(b), StreamActions(z), p);
    CellRunConcat(c, StreamActions(a), StreamActions(b), p);
    var c1 := CellRun(c, StreamActions(a), p);
    StreamCreates(a, p);
    CellPresence(c, StreamActions(a), p);
    var item := ItemFor(d, es[d]);
    SoleItem(es, d);
    ItemForReads(d, es[d]);
    PathCell(c1, item, d, p);
    var c2 := CellRun(c1, PathActions(item, d), p);
    StreamCell(c2, z, p, Base(c2), false);
    UnnamedWritten(Base(c2), es, after, p);
  }

  lemma SoleItem(es: EntryMap, d: string)
    requires d in es
    ensures StreamActions(ItemsFor(es, [d])) == PathActions(ItemFor(d, es[d]), d)
  {
    hide PathActions;
    var item := ItemFor(d, es[d]);
    OneItem(item, d);
    assert ItemsFor(es, [d]) == [item];
    assert StreamActions([item]) == [] + ItemActions(item, [d]);
  }

  lemma {:induction false} UnnamedWritten(e: Entry, es: EntryMap, paths: seq<string>, p: string)
    requires forall q | q in paths :: q in es
    requires p !in paths
    ensures StreamWritten(e, ItemsFor(es, paths), p) == e
  {
    hide Written, CommittedText;
    if paths != [] {
      UnnamedWritten(e, es, paths[..|paths| - 1], p);
    }
  }

  // With p traversed first, the paths of a producer of d list d after the last p.
  lemma FileBeforeDirectory(es: EntryMap, p: string, rest: seq<string>, d: string, x: string)
    returns (before: seq<string>, after: seq<string>)
    requires p in es && Enumerates(rest, es.Keys - {p})
    requires d in es && d != p && x in es[d].producers
    ensures PathsOf(es, [p] + rest, true, x) == before + [d] + after && p !in after
  {
    hide Occurrences, PathsOf;
    assert forall k | k in [p] + rest :: k in es;
    PathsOfConcat(es, [p], rest, x);
    PathsOfOne(es, p, x);
    PathsOfKeys(es, rest, true, x);
    hide PathsOf;
    var b := PathsOf(es, rest, true, x);
    assert d in b && p !in b;
    var k :| 0 <= k < |b| && b[k] == d;
    before, after := Occurrences(es[p].producers, x, p) + b[..k], b[k + 1..];
    assert b == b[..k] + [d] + b[k + 1..];
  }

  // The graph part of the dump that traverses p first and the producer x of d last.
  lemma LostKind(es: EntryMap, order: seq<string>, outApps: seq<string>, inApps: seq<string>, x: string,
                 before: seq<string>, d: string, after: seq<string>, p: string)
    requires DumpOrder(es, order, outApps + [x], inApps)
    requires "" !in es && p in es && es[p].producers != [] && d in es && d != p
    requires !es[d].isFile && es[d].childrenCount != 0
    requires PathsOf(es, order, true, x) == before + [d] + after && p !in after
    ensures var c := CellRun(EMPTY_CELL, GraphActions(ProducingApps(es, order, outApps + [x]) + ConsumingApps(es, order, inApps, outApps + [x])), p);
      !c.raised && !Base(c).isFile
  {
    hide CellRun, Base, PathsOf, ItemFor, ListActions, StreamActions, Strip, NoDuplicates, AppNames;
    var apps, app, consumers := ProducingApps(es, order, outApps), ProducingApp(es, order, x),
      ConsumingApps(es, order, inApps, outApps + [x]);
    assert (outApps + [x])[..|outApps|] == outApps;
    assert ProducingApps(es, order, outApps + [x]) == apps + [app];
    GraphConcat(apps + [app], consumers);
    GraphConcat(apps, [app]);
    SingleApp(app);
    var start := GraphActions(apps) + ListActions(app.inputs, AddConsumer(Strip(x)));
    var lists := start + ListActions(app.outputs, AddProducer(Strip(x)));
    assert GraphActions(apps + [app]) == lists + StreamActions(app.streaming);
    CellRunConcat(EMPTY_CELL, lists + StreamActions(app.streaming), GraphActions(consumers), p);
    CellRunConcat(EMPTY_CELL, lists, StreamActions(app.streaming), p);
    FileCreated(es, order, outApps, x, p);
    CellPresence(EMPTY_CELL, lists, p);
    PathsOfKeys(es, order, true, x);
    PinnedFile(CellRun(EMPTY_CELL, lists, p), es, before, d, after, p);
    ConsumingAppsRecord(es, order, inApps, outApps + [x]);
    ConsumersCell(CellRun(EMPTY_CELL, lists + StreamActions(app.streaming), p), consumers, p);
    GraphCell(apps + [app] + consumers, p);
  }

  lemma SingleApp(app: App)
    ensures GraphActions([app]) == AppActions(app)
  {
    hide AppActions;
    assert [app][..0] == [] && GraphActions([]) == [];
  }

  // p is created before the items of x are read.
  lemma {:induction false} FileCreated(es: EntryMap, order: seq<string>, outApps: seq<string>, x: string, p: string)
    requires Enumerates(order, es.Keys) && Enumerates(outApps + [x], AppNames(es, true))
    requires p != "" && p in es && es[p].producers != []
    ensures var app := ProducingApp(es, order, x);
      var lists := GraphActions(ProducingApps(es, order, outApps))
        + ListActions(app.inputs, AddConsumer(Strip(x))) + ListActions(app.outputs, AddProducer(Strip(x)));
      New(p) in lists && Drop(p) !in lists
  {
    hide GraphActions, ListActions, PathsOf, ItemsFor, NoDuplicates, Strip;
    var app := ProducingApp(es, order, x);
    ListCreates(app.inputs, AddConsumer(Strip(x)), p);
    ListCreates(app.outputs, AddProducer(Strip(x)), p);
    GraphCreates(ProducingApps(es, order, outApps), p);
    var y := es[p].producers[0];
    assert y in Apps(es[p], true) && y in AppNames(es, true) && y in outApps + [x];
    PathsOfKeys(es, order, true, y);
    if y != x {
      assert y in outApps;
      ProducingAppsRecord(es, order, outApps);
      var other := ProducingApp(es, order, y);
      assert p in other.outputs && AppMentions(other, p);
    }
  }

  // A plain file does not survive beside a directory with a fixed count: some traversal makes it a
  // directory.
  lemma FileLost(es: EntryMap, memoryOnly: bool, p: string, d: string)
    requires Separate(es) && DependenciesKnown(es)
    requires p in es && es[p].isFile && es[p].producers != []
    requires d in es && !es[d].isFile && es[d].childrenCount != 0 && es[d].producers != []
    ensures !RoundTrips(es, memoryOnly)
  {
    hide Run, DocumentActions, Dump, Separate, DependenciesKnown, AppNames, RoundTrips, PathsOf, NoDuplicates;
    var x := es[d].producers[0];
    AppNamed(es, d, x);
    var rest := Enumeration(es.Keys - {p});
    var others := Enumeration(AppNames(es, true) - {x});
    var inApps := Enumeration(AppNames(es, true) + AppNames(es, false));
    var before, after := FileBeforeDirectory(es, p, rest, d, x);
    FirstAndLast(es, p, rest, x, others, inApps);
    var doc := Dump(es, "", [p] + rest, others + [x], inApps);
    assert IsDump(es, "", doc);
    var s := RunExists(EMPTY_STORE, DocumentActions(doc, memoryOnly));
    LostFile(es, memoryOnly, [p] + rest, others, inApps, x, before, d, after, p, s);
    if RoundTrips(es, memoryOnly) {
      Returned(es, memoryOnly, "", doc, s);
      SameKeys(es, memoryOnly, s);
    }
  }

  lemma FirstAndLast(es: EntryMap, p: string, rest: seq<string>, x: string, others: seq<string>, inApps: seq<string>)
    requires p in es && Enumerates(rest, es.Keys - {p})
    requires x in AppNames(es, true) && Enumerates(others, AppNames(es, true) - {x})
    requires Enumerates(inApps, AppNames(es, true) + AppNames(es, false))
    ensures DumpOrder(es, [p] + rest, others + [x], inApps)
  {
    hide AppNames;
  }

  lemma Returned(es: EntryMap, memoryOnly: bool, name: string, doc: Document, s: Store)
    requires RoundTrips(es, memoryOnly) && IsDump(es, name, doc)
    requires Run(EMPTY_STORE, DocumentActions(doc, memoryOnly), s)
    ensures EntriesEqual(Remembered(es, memoryOnly), s.entries)
  {
    hide Run, DocumentActions, IsDump, Accepted, EntriesEqual;
  }

  lemma {:induction false} LostFile(es: EntryMap, memoryOnly: bool, order: seq<string>, outApps: seq<string>, inApps: seq<string>, x: string,
                 before: seq<string>, d: string, after: seq<string>, p: string, s: Store)
    requires Separate(es) && DependenciesKnown(es)
    requires DumpOrder(es, order, outApps + [x], inApps)
    requires p in es && es[p].producers != [] && d in es && d != p
    requires !es[d].isFile && es[d].childrenCount != 0
    requires PathsOf(es, order, true, x) == before + [d] + after && p !in after
    requires Run(EMPTY_STORE, DocumentActions(Dump(es, "", order, outApps + [x], inApps), memoryOnly), s)
    ensures p in s.entries && !s.entries[p].isFile
  {
    hide Run, GraphActions, TailActions, CellRun, PathsOf, Mentions, Match, Parent, NoDuplicates, ProducingApps,
      ConsumingApps, Selected, AppNames, DependenciesKnown;
    var doc := Dump(es, "", order, outApps + [x], inApps);
    assert IsDump(es, "", doc);
    DumpLists(es, "", doc);
    LostKind(es, order, outApps, inApps, x, before, d, after, p);
    CellRunConcat(EMPTY_CELL, GraphActions(doc.ioGraph), TailActions(doc, memoryOnly), p);
    TailCell(CellRun(EMPTY_CELL, GraphActions(doc.ioGraph), p), doc, memoryOnly, p);
    ParsedKeys(doc, memoryOnly, s, p);
    DumpMentions(es, doc, p);
    forall q | Mentions(doc, q) && q != ""
      ensures q in es
    {
      DumpMentions(es, doc, q);
    }
    DumpSeparated(es, doc, p);
    SeparatedActions(doc, memoryOnly, p);
    RunProjects(DocumentActions(doc, memoryOnly), s, p);
  }

  // ---- The exact condition ----

  lemma DumpExists(es: EntryMap) returns (doc: Document)
    ensures IsDump(es, "", doc)
  {
    hide AppNames, Dump;
    var order := Enumeration(es.Keys);
    var outApps := Enumeration(AppNames(es, true));
    var inApps := Enumeration(AppNames(es, true) + AppNames(es, false));
    doc := Dump(es, "", order, outApps, inApps);
    assert DumpOrder(es, order, outApps, inApps);
  }

  lemma SameKeys(es: EntryMap, memoryOnly: bool, s: Store)
    requires EntriesEqual(Remembered(es, memoryOnly), s.entries)
    ensures es.Keys == s.entries.Keys
    ensures forall p | p in es :: EntryEquals(RememberedEntry(es[p], memoryOnly), s.entries[p])
  {
    hide EntryEquals;
    var rs := Remembered(es, memoryOnly);
    assert rs.Keys == es.Keys;
    forall p | p in es
      ensures p in s.entries && EntryEquals(RememberedEntry(es[p], memoryOnly), s.entries[p])
    {
      assert p in rs && rs[p] == RememberedEntry(es[p], memoryOnly);
    }
    SubsetOfSameSize(es.Keys, s.entries.Keys);
  }

  lemma {:induction false} DependenciesForced(es: EntryMap, doc: Document, memoryOnly: bool, s: Store)
    requires "" !in es && Lists(es, doc) && es.Keys == s.entries.Keys
    requires Run(EMPTY_STORE, DocumentActions(doc, memoryOnly), s)
    ensures DependenciesKnown(es)
  {
    hide Run, DocumentActions, Mentions, Lists, ItemFor, Dependencies;
    forall q, e | q in es && es[q].producers != [] && e in Dependencies(ItemFor(q, es[q]))
      ensures e == "" || e in es
    {
      DumpMentions(es, doc, e);
      ParsedKeys(doc, memoryOnly, s, e);
    }
  }

  lemma EntriesForced(es: EntryMap, memoryOnly: bool)
    requires RoundTrips(es, memoryOnly) && Separate(es)
    ensures DependenciesKnown(es) && forall p | p in es :: WellFormedEntry(es, es[p])
  {
    hide Run, DocumentActions, IsDump, Accepted, Lists, EntriesEqual, EntryEquals, WellFormedEntry, Described,
      DescribesEntry, Matches, NoPins, NoChildMentioned, AllItems, DependenciesKnown, ItemSchema, CloseCount, ItemFor, Match;
    var doc := DumpExists(es);
    var s := RunExists(EMPTY_STORE, DocumentActions(doc, memoryOnly));
    DumpLists(es, "", doc);
    DumpAccepted(es, doc);
    SameKeys(es, memoryOnly, s);
    DependenciesForced(es, doc, memoryOnly, s);
    forall p | p in es
      ensures WellFormedEntry(es, es[p])
    {
      DumpParsed(es, doc, memoryOnly, s, p);
      EntryForced(es, p, memoryOnly, Described(doc, memoryOnly, p), s.entries[p],
        NoChildMentioned(doc, p), NoPins(AllItems(doc.ioGraph)));
    }
  }

  // An entry without producers whose kind some order does not give back is lost.
  lemma KindLost(es: EntryMap, memoryOnly: bool, p: string, order: seq<string>, outApps: seq<string>)
    requires Separate(es) && DependenciesKnown(es) && p in es && es[p].producers == []
    requires Enumerates(order, es.Keys) && Enumerates(outApps, AppNames(es, true))
    requires es[p].isFile <==> StageAfter(Absent, es, Visits(es, order, outApps), p).AsDirectory?
    ensures !RoundTrips(es, memoryOnly)
  {
    hide Run, DocumentActions, Dump, Separate, DependenciesKnown, AppNames, RoundTrips, StageAfter, Visits, NoDuplicates,
      Separated, NoChildMentioned, Lists, Mentions;
    var inApps := Enumeration(AppNames(es, true) + AppNames(es, false));
    assert DumpOrder(es, order, outApps, inApps);
    var doc := Dump(es, "", order, outApps, inApps);
    assert IsDump(es, "", doc);
    var s := RunExists(EMPTY_STORE, DocumentActions(doc, memoryOnly));
    UnproducedAlone(es, "", doc, p);
    DumpLists(es, "", doc);
    DumpMentions(es, doc, p);
    ParsedKeys(doc, memoryOnly, s, p);
    NotEmptyKey(es, p);
    ParsedKind(es, "", order, outApps, inApps, memoryOnly, s, p);
    if RoundTrips(es, memoryOnly) {
      Returned(es, memoryOnly, "", doc, s);
      SameKeys(es, memoryOnly, s);
    }
  }

  lemma NotEmptyKey(es: EntryMap, p: string)
    requires Separate(es) && p in es
    ensures p != "" && (es[p].producers == [] ==> Unproduced(es, p))
  {
  }

  lemma KindForced(es: EntryMap, memoryOnly: bool, p: string)
    requires RoundTrips(es, memoryOnly) && Separate(es) && DependenciesKnown(es)
    requires p in es && forall q | q in es :: WellFormedEntry(es, es[q])
    ensures KindKept(es, p)
  {
    hide RoundTrips, Separate, WellFormedEntry, DependenciesKnown, StaysFile, BecomesDirectory, Regular, Enumerates, AppNames,
      StageAfter, Visits;
    WellFormedRegular(es);
    NotEmptyKey(es, p);
    if es[p].producers != [] {
      if es[p].isFile && !NothingCounted(es) {
        var d :| d in es && Counted(es, d);
        CountedProduced(es, d);
        FileLost(es, memoryOnly, p, d);
      }
    } else if es[p].isFile && !StaysFile(es, p) {
      var order, outApps := FileLostInSomeOrder(es, p);
      KindLost(es, memoryOnly, p, order, outApps);
    } else if !es[p].isFile && !BecomesDirectory(es, p) {
      var order, outApps := DirectoryLostInSomeOrder(es, p);
      KindLost(es, memoryOnly, p, order, outApps);
    }
  }

  lemma CountedProduced(es: EntryMap, d: string)
    requires Regular(es) && d in es && Counted(es, d)
    ensures es[d].producers != []
  {
  }

  // Among engines with separate keys the round trip holds exactly for the well-formed ones.
  lemma RoundTripExactly(es: EntryMap, memoryOnly: bool)
    requires Separate(es)
    ensures RoundTrips(es, memoryOnly) <==> WellFormed(es)
  {
    hide RoundTrips, Separate, WellFormedEntry, KindKept, DependenciesKnown;
    if WellFormed(es) {
      WellFormedRoundTrips(es, memoryOnly);
    }
    if RoundTrips(es, memoryOnly) {
      EntriesForced(es, memoryOnly);
      forall p | p in es
        ensures KindKept(es, p)
      {
        KindForced(es, memoryOnly, p);
      }
    }
  }

  // ---- Counts kept automatically ----

  // Even where keys are one another's parents: a produced directory that counts its children comes
  // back with a fixed count.
  lemma AutomaticCountLost(es: EntryMap, memoryOnly: bool, p: string)
    requires Unmatched(es) && Counted(es, p) && es[p].producers != [] && es[p].autoCount
    ensures !RoundTrips(es, memoryOnly)
  {
    hide Run, DocumentActions, IsDump, Accepted, Lists, EntriesEqual, EntryEquals, Described, DescribesEntry, Matches,
      NoPins, NoChildMentioned, AllItems, DependenciesKnown, ItemFor, Match, Mentions, Separated;
    if RoundTrips(es, memoryOnly) {
      var doc := DumpExists(es);
      var s := RunExists(EMPTY_STORE, DocumentActions(doc, memoryOnly));
      DumpLists(es, "", doc);
      SameKeys(es, memoryOnly, s);
      DependenciesForced(es, doc, memoryOnly, s);
      forall q | Mentions(doc, q) && q != ""
        ensures q in es
      {
        DumpMentions(es, doc, q);
      }
      DumpUnmatched(es, doc);
      ParsedRules(doc, memoryOnly, s, p);
      DumpDescribes(es, doc, memoryOnly, p);
      CountFixed(es, p, memoryOnly, Described(doc, memoryOnly, p), s.entries[p], NoChildMentioned(doc, p),
        NoPins(AllItems(doc.ioGraph)));
    }
  }

  lemma DumpUnmatched(es: EntryMap, doc: Document)
    requires Unmatched(es) && forall q | Mentions(doc, q) && q != "" :: q in es
    ensures Separated(doc)
  {
    hide Mentions, Match;
  }

  lemma CountFixed(es: EntryMap, p: string, memoryOnly: bool, d: Entry, parsed: Entry, childless: bool, exact: bool)
    requires Counted(es, p) && es[p].producers != [] && es[p].autoCount
    requires DescribesEntry(p, es[p], memoryOnly, d) && Matches(parsed, d, childless, exact)
    ensures !EntryEquals(RememberedEntry(es[p], memoryOnly), parsed)
  {
    hide ItemFor, Rule, Mode, CloseCount, Dependencies, FileCount, Stripped, Covers;
    ItemForReads(p, es[p]);
  }
}
