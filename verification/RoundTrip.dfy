// Serializing an engine and parsing the document back: when the result equals the engine.
module RoundTrip {
  import opened Text
  import opened Glob
  import opened Paths
  import opened Entries
  import opened Store
  import opened Projection
  import opened Documents
  import opened Meaning
  import opened Serializer
  import opened Kinds
  import opened Engines
  import Parser

  // ---- What a dumped document lists ----

  ghost predicate Records(es: EntryMap, app: App) {
    && (forall p :: p in app.outputs <==> p in es && app.name in es[p].producers)
    && (forall p :: p in app.inputs <==> p in es && app.name in es[p].consumers)
    && (forall item | item in app.streaming :: exists p | p in app.outputs ::
          p in es && item == ItemFor(p, es[p]) && Writes(item, p, es[p]))
    && (forall p | p in app.outputs :: p in es && ItemFor(p, es[p]) in app.streaming)
  }

  ghost predicate Lists(es: EntryMap, doc: Document) {
    && (forall app | app in doc.ioGraph :: Records(es, app))
    && (forall a | a in AppNames(es, true) + AppNames(es, false) :: exists app | app in doc.ioGraph :: app.name == a)
    && (forall p :: p in doc.permanent <==> p in es && es[p].permanent)
    && (forall p :: p in doc.exclude <==> p in es && es[p].excluded)
    && (forall p :: p in doc.memory <==> p in es && es[p].inMemory)
    && (forall p :: p in doc.fileSystem <==> p in es && !es[p].inMemory)
  }

  lemma {:induction false} SelectedOf(es: EntryMap, order: seq<string>, wanted: Entry -> bool)
    requires forall k | k in order :: k in es
    ensures forall p :: p in Selected(es, order, wanted) <==> p in order && wanted(es[p])
  {
    if order != [] {
      assert order == order[..|order| - 1] + [order[|order| - 1]];
      SelectedOf(es, order[..|order| - 1], wanted);
    }
  }

  lemma {:induction false} ItemsOf(es: EntryMap, paths: seq<string>)
    requires forall p | p in paths :: p in es
    ensures forall item :: item in ItemsFor(es, paths) <==> exists p | p in paths :: item == ItemFor(p, es[p])
  {
    hide ItemFor;
    if paths != [] {
      var init, last := paths[..|paths| - 1], paths[|paths| - 1];
      assert paths == init + [last];
      assert last in paths && forall p | p in init :: p in paths;
      ItemsOf(es, init);
    }
  }

  lemma ProducingAppRecords(es: EntryMap, order: seq<string>, a: string)
    requires Enumerates(order, es.Keys)
    ensures Records(es, ProducingApp(es, order, a))
  {
    hide ItemFor, PathsOf, ItemsFor;
    PathsOfKeys(es, order, true, a);
    PathsOfKeys(es, order, false, a);
    ItemsOf(es, PathsOf(es, order, true, a));
    forall p | p in es
      ensures Writes(ItemFor(p, es[p]), p, es[p])
    {
      ItemForWrites(p, es[p]);
    }
    hide Writes;
  }

  lemma {:induction false} ProducingAppsRecord(es: EntryMap, order: seq<string>, outApps: seq<string>)
    requires Enumerates(order, es.Keys)
    ensures forall app | app in ProducingApps(es, order, outApps) :: Records(es, app) && app.name in outApps
    ensures forall a | a in outApps :: ProducingApp(es, order, a) in ProducingApps(es, order, outApps)
  {
    hide Records, ProducingApp;
    if outApps != [] {
      var init, last := outApps[..|outApps| - 1], outApps[|outApps| - 1];
      assert outApps == init + [last];
      ProducingAppsRecord(es, order, init);
      ProducingAppRecords(es, order, last);
      NameOfProducing(es, order, last);
    }
  }

  lemma NameOfProducing(es: EntryMap, order: seq<string>, a: string)
    requires forall k | k in order :: k in es
    ensures ProducingApp(es, order, a).name == a
  {
  }

  lemma {:induction false} ConsumingAppsRecord(es: EntryMap, order: seq<string>, inApps: seq<string>, outApps: seq<string>)
    requires Enumerates(order, es.Keys) && Enumerates(outApps, AppNames(es, true))
    ensures forall app | app in ConsumingApps(es, order, inApps, outApps) :: Records(es, app) && app.streaming == []
    ensures forall a | a in inApps && a !in outApps ::
      exists app | app in ConsumingApps(es, order, inApps, outApps) :: app.name == a
  {
    hide Records, PathsOf;
    if inApps != [] {
      var init, last := inApps[..|inApps| - 1], inApps[|inApps| - 1];
      assert inApps == init + [last];
      ConsumingAppsRecord(es, order, init, outApps);
      var before, all := ConsumingApps(es, order, init, outApps), ConsumingApps(es, order, inApps, outApps);
      var app := App(last, PathsOf(es, order, false, last), [], []);
      assert forall x | x in before :: x in all;
      if last !in outApps {
        ConsumerRecords(es, order, last);
        assert all == before + [app] && app in all;
      }
    }
  }

  lemma ConsumerRecords(es: EntryMap, order: seq<string>, a: string)
    requires Enumerates(order, es.Keys) && a !in AppNames(es, true)
    ensures Records(es, App(a, PathsOf(es, order, false, a), [], []))
  {
    PathsOfKeys(es, order, false, a);
    hide PathsOf;
    assert forall p | p in es && a in Apps(es[p], true) :: a in AppNames(es, true);
  }

  // Whatever the traversal orders, a dump lists each application with exactly the paths that carry
  // it, an item for each produced path, and every path under its flags.
  lemma DumpLists(es: EntryMap, name: string, doc: Document)
    requires IsDump(es, name, doc)
    ensures Lists(es, doc) && doc.name == name
  {
    hide Records, ProducingApps, ConsumingApps, Selected, AppNames;
    var order, outApps, inApps :| DumpOrder(es, order, outApps, inApps) && doc == Dump(es, name, order, outApps, inApps);
    ProducingAppsRecord(es, order, outApps);
    ConsumingAppsRecord(es, order, inApps, outApps);
    SelectedOf(es, order, (e: Entry) => e.permanent);
    SelectedOf(es, order, (e: Entry) => e.excluded);
    SelectedOf(es, order, (e: Entry) => e.inMemory);
    SelectedOf(es, order, (e: Entry) => !e.inMemory);
    forall a | a in AppNames(es, true) + AppNames(es, false)
      ensures exists app | app in doc.ioGraph :: app.name == a
    {
      if a in outApps {
        NameOfProducing(es, order, a);
        assert ProducingApp(es, order, a) in doc.ioGraph;
      } else {
        var app :| app in ConsumingApps(es, order, inApps, outApps) && app.name == a;
        assert app in doc.ioGraph;
      }
    }
  }

  // ---- Reading a dumped item ----

  lemma CountedText(e: Entry)
    requires e.closeCount > 0
    ensures CommittedText(e) == COUNTED + NatText(e.closeCount)
    ensures CommittedPattern(CommittedText(e), e.isFile)
    ensures CommittedText(e) != ON_FILE && CommittedText(e) != ON_N_FILES
  {
    assert ON_CLOSE + ":" == COUNTED;
    var text := CommittedText(e);
    assert text[|COUNTED|..] == NatText(e.closeCount);
    assert text[3] == COUNTED[3] == 'c' && ON_FILE[3] == 'f' && ON_N_FILES[3] == 'n';
  }

  // A positive close count reads back, with on_close, exactly when an int holds it; otherwise the
  // rule's own text is what the parser sees.
  lemma ItemForReads(p: string, e: Entry)
    ensures var item := ItemFor(p, e);
      && Mode(item) == e.fireRule
      && FileCount(item) == (if e.isFile then 0 else e.childrenCount)
      && (e.closeCount > 0 ==>
            && Rule(item) == ON_CLOSE && Dependencies(item) == []
            && CloseCount(item) == (if e.closeCount <= INT_MAX then Some(e.closeCount) else None)
            && (ItemSchema(item) <==> ValidFireRule(e.fireRule)))
      && (e.closeCount <= 0 && ValidCommitRule(e.commitRule) ==>
            && Rule(item) == e.commitRule && CloseCount(item) == Some(0)
            && Dependencies(item) == (if e.commitRule == ON_FILE then e.fileDependencies else [])
            && (ItemSchema(item) <==> ValidFireRule(e.fireRule) && !(e.isFile && e.commitRule == ON_N_FILES)))
      && (e.closeCount <= 0 && ItemSchema(item) && Rule(item) == e.commitRule ==>
            CloseCount(item) == Some(0) && ValidCommitRule(e.commitRule) && !(e.isFile && e.commitRule == ON_N_FILES))
  {
    hide Before, NatText, Stoi;
    var item := ItemFor(p, e);
    if e.closeCount > 0 {
      CountedText(e);
      CountedRule(NatText(e.closeCount));
      StoiOfIntText(e.closeCount);
    } else if ValidCommitRule(e.commitRule) {
      PlainRule(e.commitRule);
    }
    if ItemSchema(item) {
      ItemReads(item);
    }
  }

  // ---- When the round trip holds ----

  // What one entry must satisfy.
  ghost predicate WellFormedEntry(es: EntryMap, e: Entry) {
    && NoDuplicates(e.producers) && (forall a | a in e.producers :: SpaceFree(a))
    && NoDuplicates(e.consumers) && (forall a | a in e.consumers :: SpaceFree(a))
    && ValidCommitRule(e.commitRule) && ValidFireRule(e.fireRule)
    && (e.isFile ==> e.commitRule != ON_N_FILES && e.childrenCount == 0)
    && 0 <= e.closeCount <= INT_MAX && (e.closeCount > 0 ==> e.commitRule == ON_CLOSE)
    && (e.fileDependencies != [] ==> e.commitRule == ON_FILE)
    && (forall d | d in e.fileDependencies :: d == "" || d in es)
    && (e.autoCount <==> e.childrenCount == 0)
    && (e.producers == [] ==> e.commitRule == ON_TERMINATION && e.fireRule == UPDATE && e.childrenCount == 0)
  }

  // Its kind comes back: once a file count is fixed no produced entry may be a file, and one without
  // producers must have the kind that every traversal order gives it.
  ghost predicate KindKept(es: EntryMap, p: string)
    requires p in es
  {
    if es[p].producers != [] then es[p].isFile ==> NothingCounted(es)
    else if es[p].isFile then StaysFile(es, p)
    else BecomesDirectory(es, p)
  }

  ghost predicate WellFormed(es: EntryMap) {
    forall p | p in es :: WellFormedEntry(es, es[p]) && KindKept(es, p)
  }

  // The keys do not interact when the engine is rebuilt: none is empty or matches another, and one
  // that is another's parent is a produced directory with a fixed count.
  predicate Separate(es: EntryMap) {
    && Unmatched(es)
    && (forall p | p in es && Parent(p) in es :: FixedDirectory(es[Parent(p)]))
  }

  predicate Unmatched(es: EntryMap) {
    "" !in es && forall p, q | p in es && q in es && p != q :: !Match(p, q)
  }

  predicate FixedDirectory(e: Entry) {
    !e.isFile && !e.autoCount && e.childrenCount != 0 && e.producers != []
  }

  function Remembered(es: EntryMap, memoryOnly: bool): EntryMap {
    if memoryOnly then map p | p in es :: es[p].(inMemory := true) else es
  }

  // Every dump is accepted, and every engine parsed from it equals the dumped one (with everything
  // in memory when the parser is told so).
  ghost predicate RoundTrips(es: EntryMap, memoryOnly: bool) {
    forall name, doc | IsDump(es, name, doc) ::
      && Accepted(doc)
      && forall s | Run(EMPTY_STORE, DocumentActions(doc, memoryOnly), s) ::
           EntriesEqual(Remembered(es, memoryOnly), s.entries)
  }

  // ---- Streaming items of a dumped document ----

  lemma {:induction false} ItemsIn(apps: seq<App>, item: StreamItem)
    ensures item in AllItems(apps) <==> exists app | app in apps :: item in app.streaming
  {
    if apps != [] {
      var init, last := apps[..|apps| - 1], apps[|apps| - 1];
      assert apps == init + [last];
      assert last in apps && forall app | app in init :: app in apps;
      ItemsIn(init, item);
    }
  }

  // Every item of the document is that of one produced path, and every produced path has one.
  lemma DumpedItems(es: EntryMap, doc: Document)
    requires Lists(es, doc)
    ensures forall item | item in AllItems(doc.ioGraph) ::
      exists p | p in es :: es[p].producers != [] && item == ItemFor(p, es[p])
    ensures forall p | p in es && es[p].producers != [] :: ItemFor(p, es[p]) in AllItems(doc.ioGraph)
  {
    hide ItemFor;
    forall item | item in AllItems(doc.ioGraph)
      ensures exists p | p in es :: es[p].producers != [] && item == ItemFor(p, es[p])
    {
      ItemsIn(doc.ioGraph, item);
      var app :| app in doc.ioGraph && item in app.streaming;
      assert Records(es, app);
      var p :| p in app.outputs && item == ItemFor(p, es[p]);
      assert app.name in es[p].producers;
    }
    forall p | p in es && es[p].producers != []
      ensures ItemFor(p, es[p]) in AllItems(doc.ioGraph)
    {
      var a := es[p].producers[0];
      assert a in Apps(es[p], true) && a in AppNames(es, true) + AppNames(es, false);
      var app :| app in doc.ioGraph && app.name == a;
      assert Records(es, app) && p in app.outputs;
      ItemsIn(doc.ioGraph, ItemFor(p, es[p]));
    }
  }

  // So the last item naming p, the dependencies and the fixed count are those of p's own item.
  lemma {:induction false} LastOfItems(es: EntryMap, items: seq<StreamItem>, p: string)
    requires forall item | item in items :: exists q | q in es :: item == ItemFor(q, es[q])
    ensures LastItem(items, p).Some? ==> p in es && LastItem(items, p).value == ItemFor(p, es[p]) && ItemFor(p, es[p]) in items
    ensures p in es && ItemFor(p, es[p]) in items ==> LastItem(items, p).Some?
    ensures LastDependencies(items, p) ==
      if LastItem(items, p).Some? then Dependencies(ItemFor(p, es[p])) else []
    ensures LastFileCount(items, p) ==
      if LastItem(items, p).Some? && FileCount(ItemFor(p, es[p])) != 0 then Some(FileCount(ItemFor(p, es[p]))) else None
  {
    hide Dependencies, FileCount, CommittedText;
    if items != [] {
      var init, last := items[..|items| - 1], items[|items| - 1];
      assert items == init + [last] && last in items && forall item | item in init :: item in items;
      LastOfItems(es, init, p);
      var q :| q in es && last == ItemFor(q, es[q]);
      assert last.paths == [q] && (p in last.paths <==> p == q);
    }
  }

  // ---- What a dumped document describes ----

  ghost predicate Stripped(names: seq<string>, parsed: seq<string>) {
    NoDuplicates(parsed) && forall a :: a in parsed <==> exists b | b in names :: Strip(b) == a
  }

  ghost predicate DescribesEntry(p: string, e: Entry, memoryOnly: bool, d: Entry) {
    var item := ItemFor(p, e);
    && d.permanent == e.permanent && d.excluded == e.excluded && d.inMemory == (memoryOnly || e.inMemory)
    && Stripped(e.producers, d.producers) && Stripped(e.consumers, d.consumers)
    && if e.producers == [] then
         d == DEFAULT_ENTRY.(producers := d.producers, consumers := d.consumers, permanent := d.permanent,
                             excluded := d.excluded, inMemory := d.inMemory)
       else
         && d.commitRule == Rule(item) && d.fireRule == Mode(item) && d.isFile == e.isFile
         && d.closeCount == (if CloseCount(item).Some? then CloseCount(item).value else 0)
         && d.fileDependencies == Dependencies(item)
         && d.childrenCount == FileCount(item) && d.autoCount == (FileCount(item) == 0)
  }

  lemma DumpDescribes(es: EntryMap, doc: Document, memoryOnly: bool, p: string)
    requires Lists(es, doc) && p in es
    ensures DescribesEntry(p, es[p], memoryOnly, Described(doc, memoryOnly, p))
  {
    hide ItemFor, Described, Rule, Mode, CloseCount, Dependencies, FileCount, AllItems, LastItem, LastDependencies, LastFileCount, NoDuplicates;
    DumpedItems(es, doc);
    LastOfItems(es, AllItems(doc.ioGraph), p);
    DescribedReads(doc, memoryOnly, p);
    DumpedRoles(es, doc, true, p);
    DumpedRoles(es, doc, false, p);
    FlagsDescribed(es, doc, memoryOnly, p);
    if es[p].producers == [] {
      UnproducedItem(es, doc, p);
    } else {
      KindOfItem(p, es[p]);
    }
  }

  lemma KindOfItem(p: string, e: Entry)
    ensures ItemFor(p, e).isName == e.isFile && ItemFor(p, e).paths == [p]
  {
  }

  lemma FlagsDescribed(es: EntryMap, doc: Document, memoryOnly: bool, p: string)
    requires Lists(es, doc) && p in es
    ensures var d := Described(doc, memoryOnly, p);
      d.permanent == es[p].permanent && d.excluded == es[p].excluded && d.inMemory == (memoryOnly || es[p].inMemory)
  {
    hide GraphWritten, Records;
  }

  lemma UnproducedItem(es: EntryMap, doc: Document, p: string)
    requires Lists(es, doc) && p in es && es[p].producers == []
    ensures LastItem(AllItems(doc.ioGraph), p).None?
  {
    hide ItemFor, Records;
    DumpedItems(es, doc);
    LastOfItems(es, AllItems(doc.ioGraph), p);
    if ItemFor(p, es[p]) in AllItems(doc.ioGraph) {
      var q :| q in es && es[q].producers != [] && ItemFor(p, es[p]) == ItemFor(q, es[q]);
      KindOfItem(p, es[p]);
      KindOfItem(q, es[q]);
    }
  }

  lemma DumpedRoles(es: EntryMap, doc: Document, producing: bool, p: string)
    requires Lists(es, doc) && p in es
    ensures forall a :: Listing(doc.ioGraph, producing, p, a) <==> exists b | b in Apps(es[p], producing) :: Strip(b) == a
  {
    hide Strip;
    forall a
      ensures Listing(doc.ioGraph, producing, p, a) <==> exists b | b in Apps(es[p], producing) :: Strip(b) == a
    {
      if Listing(doc.ioGraph, producing, p, a) {
        var app :| app in doc.ioGraph && Strip(app.name) == a && p in (if producing then app.outputs else app.inputs);
        assert Records(es, app) && app.name in Apps(es[p], producing);
      }
      if b :| b in Apps(es[p], producing) && Strip(b) == a {
        assert b in AppNames(es, true) + AppNames(es, false);
        var app :| app in doc.ioGraph && app.name == b;
        assert Records(es, app);
      }
    }
  }

  predicate DependenciesKnown(es: EntryMap) {
    forall q | q in es && es[q].producers != [] ::
      forall d | d in Dependencies(ItemFor(q, es[q])) :: d == "" || d in es
  }

  // The document mentions every key, and beside them only dependencies.
  lemma DumpMentions(es: EntryMap, doc: Document, p: string)
    requires Lists(es, doc)
    ensures p in es ==> Mentions(doc, p)
    ensures DependenciesKnown(es) && Mentions(doc, p) && p != "" ==> p in es
    ensures forall q | q in es && es[q].producers != [] && q != "" && p in Dependencies(ItemFor(q, es[q])) :: Mentions(doc, p)
  {
    hide Dependencies, ItemFor;
    DumpedItems(es, doc);
    forall app | app in doc.ioGraph && AppMentions(app, p) && DependenciesKnown(es) && p != ""
      ensures p in es
    {
      assert Records(es, app);
      if item :| item in app.streaming && ItemMentions(item, p) {
        ItemsIn(doc.ioGraph, item);
        var q :| q in es && es[q].producers != [] && item == ItemFor(q, es[q]);
        KindOfItem(q, es[q]);
      }
    }
    forall q | q in es && es[q].producers != [] && q != "" && p in Dependencies(ItemFor(q, es[q]))
      ensures Mentions(doc, p)
    {
      var item := ItemFor(q, es[q]);
      KindOfItem(q, es[q]);
      ItemsIn(doc.ioGraph, item);
      var app :| app in doc.ioGraph && item in app.streaming;
      assert q in item.paths && ItemMentions(item, p);
      assert AppMentions(app, p);
    }
  }

  // ---- One entry ----

  lemma {:induction false} DistinctCount(xs: seq<string>)
    ensures |set x | x in xs| <= |xs|
    ensures |set x | x in xs| == |xs| <==> NoDuplicates(xs)
  {
    if xs != [] {
      var init, last := xs[..|xs| - 1], xs[|xs| - 1];
      DistinctCount(init);
      assert xs == init + [last];
      assert (set x | x in xs) == (set x | x in init) + {last};
    }
  }

  // Names free of white space and of repetitions are the ones the parser gives back unchanged.
  lemma StrippedNames(names: seq<string>, parsed: seq<string>)
    requires Stripped(names, parsed)
    ensures NoDuplicates(names) && (forall a | a in names :: SpaceFree(a)) <==> Covers(names, parsed)
  {
    hide Strip, SpaceFree, NoDuplicates;
    DistinctCount(names);
    DistinctCount(parsed);
    forall b
      ensures Strip(b) == b <==> SpaceFree(b)
      ensures Strip(Strip(b)) == Strip(b)
    {
      StripFixpoint(b);
    }
    if forall a | a in names :: SpaceFree(a) {
      SpaceFreeNames(names, parsed);
    } else {
      var a :| a in names && !SpaceFree(a);
      assert a !in parsed;
    }
  }

  lemma SpaceFreeNames(names: seq<string>, parsed: seq<string>)
    requires Stripped(names, parsed) && forall a | a in names :: Strip(a) == a
    ensures (set x | x in names) == (set x | x in parsed)
  {
    hide Strip, NoDuplicates;
    forall a
      ensures a in parsed <==> a in names
    {
    }
  }

  function RememberedEntry(e: Entry, memoryOnly: bool): Entry {
    if memoryOnly then e.(inMemory := true) else e
  }

  lemma EntryReturns(es: EntryMap, p: string, memoryOnly: bool, d: Entry, parsed: Entry, childless: bool, exact: bool)
    requires p in es && WellFormedEntry(es, es[p])
    requires DescribesEntry(p, es[p], memoryOnly, d) && Matches(parsed, d, childless, exact)
    requires childless || es[p].childrenCount != 0
    requires parsed.isFile == es[p].isFile
    ensures EntryEquals(RememberedEntry(es[p], memoryOnly), parsed)
  {
    hide ItemFor, Rule, Mode, CloseCount, Dependencies, FileCount, ItemSchema, Stripped, NoDuplicates, Covers;
    var e := es[p];
    ItemForReads(p, e);
    StrippedNames(e.producers, d.producers);
    StrippedNames(e.consumers, d.consumers);
    CoversItself(e.fileDependencies);
  }

  lemma CoversItself(xs: seq<string>)
    ensures Covers(xs, xs)
  {
  }

  lemma CoversNothing(xs: seq<string>)
    ensures Covers(xs, []) <==> xs == []
  {
  }

  lemma EntryForced(es: EntryMap, p: string, memoryOnly: bool, d: Entry, parsed: Entry, childless: bool, exact: bool)
    requires p in es && DescribesEntry(p, es[p], memoryOnly, d) && Matches(parsed, d, childless, exact)
    requires EntryEquals(RememberedEntry(es[p], memoryOnly), parsed)
    requires es[p].producers != [] ==> ItemSchema(ItemFor(p, es[p])) && CloseCount(ItemFor(p, es[p])).Some?
    requires DependenciesKnown(es) && (childless || FixedDirectory(es[p]))
    ensures WellFormedEntry(es, es[p])
  {
    hide ItemFor, Rule, Mode, CloseCount, Dependencies, FileCount, Stripped, NoDuplicates, Covers, SpaceFree;
    var e := es[p];
    ItemForReads(p, e);
    StrippedNames(e.producers, d.producers);
    StrippedNames(e.consumers, d.consumers);
    CoversNothing(e.fileDependencies);
    if e.producers != [] {
      ItemReads(ItemFor(p, e));
    }
  }

  // ---- Whole engines ----

  predicate ItemsAccepted(es: EntryMap) {
    forall p | p in es && es[p].producers != [] ::
      ItemSchema(ItemFor(p, es[p])) && CloseCount(ItemFor(p, es[p])).Some?
  }

  lemma DumpAccepted(es: EntryMap, doc: Document)
    requires Lists(es, doc)
    ensures Accepted(doc) <==> ItemsAccepted(es)
  {
    hide ItemSchema, CloseCount, ItemFor;
    DumpedItems(es, doc);
    forall app, item | app in doc.ioGraph && item in app.streaming && ItemsAccepted(es)
      ensures ItemSchema(item) && CloseCount(item).Some?
    {
      ItemsIn(doc.ioGraph, item);
      var p :| p in es && es[p].producers != [] && item == ItemFor(p, es[p]);
    }
    forall p | p in es && es[p].producers != [] && Accepted(doc)
      ensures ItemSchema(ItemFor(p, es[p])) && CloseCount(ItemFor(p, es[p])).Some?
    {
      ItemsIn(doc.ioGraph, ItemFor(p, es[p]));
      var app :| app in doc.ioGraph && ItemFor(p, es[p]) in app.streaming;
      assert AppSchema(app) && AppCountsFit(app);
    }
  }

  // In a dump of separate keys no key but a fixed directory has a mentioned child.
  lemma DumpSeparated(es: EntryMap, doc: Document, p: string)
    requires Lists(es, doc) && Separate(es) && p in es
    requires forall q | Mentions(doc, q) && q != "" :: q in es
    ensures Separated(doc)
    ensures NoChildMentioned(doc, p) || FixedDirectory(es[p])
  {
    hide Mentions, Match, Parent, FixedDirectory, Lists;
  }

  lemma DumpUnpinned(es: EntryMap, doc: Document)
    requires Lists(es, doc) && NothingCounted(es)
    ensures NoPins(AllItems(doc.ioGraph))
  {
    hide ItemFor, FileCount;
    DumpedItems(es, doc);
    forall item | item in AllItems(doc.ioGraph)
      ensures FileCount(item) == 0
    {
      var p :| p in es && es[p].producers != [] && item == ItemFor(p, es[p]);
      ItemForReads(p, es[p]);
    }
  }

  lemma WellFormedItems(es: EntryMap)
    requires forall p | p in es :: WellFormedEntry(es, es[p])
    ensures ItemsAccepted(es) && DependenciesKnown(es)
  {
    hide ItemSchema, CloseCount, ItemFor, Dependencies, NoDuplicates, SpaceFree;
    forall p | p in es
      ensures ItemSchema(ItemFor(p, es[p])) && CloseCount(ItemFor(p, es[p])).Some?
      ensures forall d | d in Dependencies(ItemFor(p, es[p])) :: d == "" || d in es
    {
      ItemForReads(p, es[p]);
      assert WellFormedEntry(es, es[p]);
    }
  }

  // The parsed engine holds the dumped keys, each with an entry that matches its description.
  lemma {:induction false} DumpParsed(es: EntryMap, doc: Document, memoryOnly: bool, s: Store, p: string)
    requires Lists(es, doc) && Separate(es) && DependenciesKnown(es)
    requires Run(EMPTY_STORE, DocumentActions(doc, memoryOnly), s)
    ensures p in s.entries <==> p in es
    ensures p in es ==>
      var childless := NoChildMentioned(doc, p);
      && (childless || FixedDirectory(es[p]))
      && DescribesEntry(p, es[p], memoryOnly, Described(doc, memoryOnly, p))
      && Matches(s.entries[p], Described(doc, memoryOnly, p), childless, NoPins(AllItems(doc.ioGraph)))
  {
    hide Run, DocumentActions, Mentions, Described, DescribesEntry, Matches, Lists, Separated, NoChildMentioned,
      NoPins, AllItems, DependenciesKnown, FixedDirectory, Match, Parent;
    ParsedKeys(doc, memoryOnly, s, p);
    DumpMentions(es, doc, p);
    if p in es {
      forall q | Mentions(doc, q) && q != ""
        ensures q in es
      {
        DumpMentions(es, doc, q);
      }
      DumpSeparated(es, doc, p);
      DumpDescribes(es, doc, memoryOnly, p);
      ParsedRules(doc, memoryOnly, s, p);
    }
  }

  // A kept kind comes back whatever the traversal orders.
  lemma KindReturns(es: EntryMap, name: string, doc: Document, memoryOnly: bool, s: Store, p: string)
    requires Separate(es) && DependenciesKnown(es) && Regular(es) && IsDump(es, name, doc)
    requires Run(EMPTY_STORE, DocumentActions(doc, memoryOnly), s)
    requires p in es && KindKept(es, p)
    ensures p in s.entries && s.entries[p].isFile == es[p].isFile
  {
    hide Run, DocumentActions, Mentions, Lists, Dump, DependenciesKnown, AllItems, NoPins,
      StaysFile, BecomesDirectory, Match, Parent, NothingCounted, Described, NoChildMentioned, Separated, ItemFor,
      StageAfter, Visits, Counted, AppNames, NoDuplicates;
    DumpLists(es, name, doc);
    DumpParsed(es, doc, memoryOnly, s, p);
    if es[p].producers == [] {
      var order, outApps, inApps :| DumpOrder(es, order, outApps, inApps) && doc == Dump(es, name, order, outApps, inApps);
      UnproducedAlone(es, name, doc, p);
      ParsedKind(es, name, order, outApps, inApps, memoryOnly, s, p);
      if es[p].isFile {
        FileInEveryOrder(es, order, outApps, p);
      } else {
        DirectoryInEveryOrder(es, order, outApps, p);
      }
    } else {
      KindOfItem(p, es[p]);
      if NothingCounted(es) {
        DumpUnpinned(es, doc);
      }
    }
  }

  lemma UnproducedAlone(es: EntryMap, name: string, doc: Document, p: string)
    requires Separate(es) && DependenciesKnown(es) && IsDump(es, name, doc)
    requires p in es && es[p].producers == []
    ensures Separated(doc) && NoChildMentioned(doc, p)
  {
    hide IsDump, Lists, Mentions, Match, Parent, DependenciesKnown, Separated, NoChildMentioned;
    DumpLists(es, name, doc);
    forall q | Mentions(doc, q) && q != ""
      ensures q in es
    {
      DumpMentions(es, doc, q);
    }
    DumpSeparated(es, doc, p);
  }

  lemma {:induction false} DumpReturns(es: EntryMap, doc: Document, memoryOnly: bool, s: Store)
    requires Separate(es) && Lists(es, doc) && forall p | p in es :: WellFormedEntry(es, es[p])
    requires Run(EMPTY_STORE, DocumentActions(doc, memoryOnly), s)
    requires forall p | p in es && p in s.entries :: s.entries[p].isFile == es[p].isFile
    ensures EntriesEqual(Remembered(es, memoryOnly), s.entries)
  {
    hide Run, DocumentActions, Described, DescribesEntry, Matches, Lists, NoChildMentioned, NoPins, AllItems,
      EntryEquals, WellFormedEntry, DependenciesKnown, Separate;
    WellFormedItems(es);
    forall p
      ensures p in s.entries <==> p in es
      ensures p in es ==> EntryEquals(RememberedEntry(es[p], memoryOnly), s.entries[p])
    {
      DumpParsed(es, doc, memoryOnly, s, p);
      if p in es {
        EntryReturns(es, p, memoryOnly, Described(doc, memoryOnly, p), s.entries[p],
          NoChildMentioned(doc, p), NoPins(AllItems(doc.ioGraph)));
      }
    }
    assert s.entries.Keys == es.Keys == Remembered(es, memoryOnly).Keys;
    assert |s.entries| == |s.entries.Keys| && |Remembered(es, memoryOnly)| == |Remembered(es, memoryOnly).Keys|;
  }

  lemma WellFormedRegular(es: EntryMap)
    requires forall p | p in es :: WellFormedEntry(es, es[p])
    ensures Regular(es)
  {
    hide NoDuplicates, SpaceFree;
    forall p | p in es
      ensures NoDuplicates(es[p].producers) && (Counted(es, p) ==> es[p].producers != [])
    {
      assert WellFormedEntry(es, es[p]);
    }
  }

  // A well-formed engine with separate keys survives the round trip, whatever the traversal orders.
  lemma WellFormedRoundTrips(es: EntryMap, memoryOnly: bool)
    requires WellFormed(es) && Separate(es)
    ensures RoundTrips(es, memoryOnly)
  {
    hide WellFormedEntry, KindKept, Separate, IsDump, Accepted, Lists, EntriesEqual, Run, DocumentActions, Regular,
      DependenciesKnown;
    WellFormedItems(es);
    WellFormedRegular(es);
    forall name, doc | IsDump(es, name, doc)
      ensures Accepted(doc)
      ensures forall s | Run(EMPTY_STORE, DocumentActions(doc, memoryOnly), s) ::
        EntriesEqual(Remembered(es, memoryOnly), s.entries)
    {
      DumpLists(es, name, doc);
      DumpAccepted(es, doc);
      forall s | Run(EMPTY_STORE, DocumentActions(doc, memoryOnly), s)
        ensures EntriesEqual(Remembered(es, memoryOnly), s.entries)
      {
        forall p | p in es
          ensures p in s.entries && s.entries[p].isFile == es[p].isFile
        {
          KindReturns(es, name, doc, memoryOnly, s, p);
        }
        DumpReturns(es, doc, memoryOnly, s);
      }
    }
  }

  // ---- A positive close count under another rule ----

  // The serializer writes on_close for it, so this is the engine that comes back.
  function Repaired(es: EntryMap): EntryMap {
    map p | p in es :: if es[p].closeCount > 0 then es[p].(commitRule := ON_CLOSE) else es[p]
  }

  lemma RepairedItem(p: string, e: Entry)
    requires e.closeCount > 0
    ensures ItemFor(p, e.(commitRule := ON_CLOSE)) == ItemFor(p, e)
  {
  }

  lemma RepairedLists(es: EntryMap, doc: Document)
    requires Lists(es, doc)
    ensures Lists(Repaired(es), doc)
  {
    hide ItemFor, AppNames, Writes;
    var rs := Repaired(es);
    RepairedNames(es, true);
    RepairedNames(es, false);
    forall p | p in es
      ensures ItemFor(p, rs[p]) == ItemFor(p, es[p])
      ensures Writes(ItemFor(p, rs[p]), p, rs[p])
    {
      ItemForWrites(p, rs[p]);
      if es[p].closeCount > 0 {
        RepairedItem(p, es[p]);
      }
    }
    forall app | app in doc.ioGraph
      ensures Records(rs, app)
    {
      assert Records(es, app);
    }
  }

  lemma RepairedNames(es: EntryMap, producing: bool)
    ensures AppNames(Repaired(es), producing) == AppNames(es, producing)
  {
    assert forall p | p in es :: Apps(Repaired(es)[p], producing) == Apps(es[p], producing);
  }

  lemma RepairedAccepted(es: EntryMap, name: string, doc: Document)
    requires WellFormed(Repaired(es)) && IsDump(es, name, doc)
    ensures Accepted(doc) && doc.name == name
    ensures Lists(Repaired(es), doc)
  {
    hide IsDump, Accepted, Lists, Match, Parent, WellFormedEntry, KindKept, Repaired;
    DumpLists(es, name, doc);
    RepairedLists(es, doc);
    WellFormedItems(Repaired(es));
    DumpAccepted(Repaired(es), doc);
  }

  // Repairing changes nothing the kinds depend on.
  lemma RepairedKinds(es: EntryMap, p: string)
    requires p in es && KindKept(Repaired(es), p)
    ensures KindKept(es, p)
  {
    hide Dependencies, ItemFor, AppNames;
    var rs := Repaired(es);
    RepairedNames(es, true);
    forall q | q in es
      ensures Counted(rs, q) <==> Counted(es, q)
      ensures DependsOn(rs, q, p) <==> DependsOn(es, q, p)
      ensures rs[q].producers == es[q].producers && rs[q].consumers == es[q].consumers
    {
      if es[q].closeCount > 0 {
        RepairedItem(q, es[q]);
      }
    }
    SameKindKept(es, rs, p);
  }

  lemma SameKindKept(es: EntryMap, rs: EntryMap, p: string)
    requires p in es && rs.Keys == es.Keys && rs[p].isFile == es[p].isFile
    requires AppNames(rs, true) == AppNames(es, true)
    requires forall q | q in es :: Counted(rs, q) <==> Counted(es, q)
    requires forall q | q in es :: DependsOn(rs, q, p) <==> DependsOn(es, q, p)
    requires forall q | q in es :: rs[q].producers == es[q].producers && rs[q].consumers == es[q].consumers
    requires KindKept(rs, p)
    ensures KindKept(es, p)
  {
    hide AppNames;
    assert forall q :: DependsOn(rs, q, p) <==> DependsOn(es, q, p);
    assert forall a, d :: ProducesCounted(rs, a, d) <==> ProducesCounted(es, a, d);
    assert NothingCounted(rs) <==> NothingCounted(es);
    assert forall q | DependsOn(es, q, p) :: SoleCounted(rs, q) ==> SoleCounted(es, q);
    hide Counted, DependsOn, ProducesCounted, SoleCounted, NothingCounted;
    forall a | Entangled(rs, a, p)
      ensures Entangled(es, a, p)
    {
    }
    hide Entangled;
  }

  // An engine that is well formed but for positive close counts under other rules comes back with
  // those rules set to on_close.
  lemma RepairedRoundTrips(es: EntryMap, memoryOnly: bool, name: string, doc: Document, s: Store)
    requires WellFormed(Repaired(es)) && Separate(es) && IsDump(es, name, doc)
    requires Run(EMPTY_STORE, DocumentActions(doc, memoryOnly), s)
    ensures EntriesEqual(Remembered(Repaired(es), memoryOnly), s.entries)
  {
    hide Run, DocumentActions, IsDump, Accepted, Lists, EntriesEqual, WellFormedEntry, KindKept, Match, Parent;
    RepairedAccepted(es, name, doc);
    assert Separate(Repaired(es));
    RepairedRegular(es);
    forall p | p in es
      ensures p in s.entries && s.entries[p].isFile == Repaired(es)[p].isFile
    {
      RepairedKinds(es, p);
      KindReturns(es, name, doc, memoryOnly, s, p);
    }
    DumpReturns(Repaired(es), doc, memoryOnly, s);
  }

  lemma RepairedRegular(es: EntryMap)
    requires forall p | p in es :: WellFormedEntry(Repaired(es), Repaired(es)[p])
    ensures Regular(es) && DependenciesKnown(es)
  {
    hide WellFormedEntry, ItemFor, Dependencies, NoDuplicates;
    var rs := Repaired(es);
    WellFormedRegular(rs);
    WellFormedItems(rs);
    forall q | q in es
      ensures Counted(es, q) ==> es[q].producers != []
      ensures NoDuplicates(es[q].producers)
      ensures es[q].producers != [] ==> forall d | d in Dependencies(ItemFor(q, es[q])) :: d == "" || d in es
    {
      assert Counted(rs, q) <==> Counted(es, q);
      assert NoDuplicates(rs[q].producers);
      if es[q].closeCount > 0 {
        RepairedItem(q, es[q]);
      }
    }
  }

  lemma WellFormedNeedsNoRepair(es: EntryMap)
    requires WellFormed(es)
    ensures Repaired(es) == es
  {
    forall p | p in es
      ensures Repaired(es)[p] == es[p]
    {
      assert WellFormedEntry(es, es[p]);
    }
  }

  // ---- The two programs in sequence ----

  // Serializer::dump followed by Parser::parse.
  method DumpAndParse(engine: Engine, memoryOnly: bool) returns (r: Parser.ParseResult)
    ensures Separate(engine.entries) && WellFormed(Repaired(engine.entries)) ==>
      && r.Parsed?
      && fresh(r.engine)
      && r.engine.workflowName == engine.workflowName
      && EntriesEqual(Remembered(Repaired(engine.entries), memoryOnly), r.engine.entries)
    ensures Separate(engine.entries) && WellFormed(engine.entries) ==>
      r.Parsed? && EntriesEqual(Remembered(engine.entries, memoryOnly), r.engine.entries)
  {
    hide Run, DocumentActions, IsDump, Accepted, EntriesEqual, WellFormed, Separate;
    if WellFormed(engine.entries) {
      WellFormedNeedsNoRepair(engine.entries);
    }
    var doc := Serialize(engine);
    r := Parser.Parse(doc, memoryOnly);
    if Separate(engine.entries) && WellFormed(Repaired(engine.entries)) {
      RepairedAccepted(engine.entries, engine.workflowName, doc);
      RepairedRoundTrips(engine.entries, memoryOnly, engine.workflowName, doc, r.engine.State());
    }
  }
}
