// A round trip for overlapping keys. What a path inherits when it is created again does no harm if
// the keys that match it give it nothing that it does not hold itself.
module Inheritance {
  import opened Text
  import opened Glob
  import opened Paths
  import opened Entries
  import opened Store
  import opened Projection
  import opened Documents
  import opened Meaning
  import opened Serializer
  import opened Kinds
  import opened RoundTrip

  // ---- The condition ----

  // Everything an entry copied from a would bring, the entry e has or overwrites.
  ghost predicate Within(a: Entry, e: Entry) {
    && (forall x | x in a.producers :: x in e.producers)
    && (forall x | x in a.consumers :: x in e.consumers)
    && (e.fileDependencies == [] ==> a.fileDependencies == [])
    && (a.permanent ==> e.permanent) && (a.excluded ==> e.excluded)
  }

  ghost predicate Inheritable(es: EntryMap) {
    && "" !in es
    && (forall p | p in es :: Parent(p) !in es)
    && (forall p, k | p in es && k in es && Match(k, p) :: Within(es[k], es[p]))
  }

  // ---- Actions that lead to the engine ----

  // The change sets the entry to what e holds, or adds what e lists.
  predicate Fits(e: Entry, c: Change) {
    match c
    case AddProducer(app) => app in e.producers
    case AddConsumer(app) => app in e.consumers
    case SetCommitRule(rule) => rule == e.commitRule
    case SetFireRule(rule) => rule == e.fireRule
    case SetPermanent(value) => value && e.permanent
    case SetExcluded(value) => value && e.excluded
    case SetKind(isFile) => isFile == e.isFile
    case SetCloseCount(count) => count == e.closeCount
    case PinChildren(_) => false
    case SetDependencies(paths) => paths == e.fileDependencies
    case SetInMemory(value) => value == e.inMemory
  }

  predicate Leads(es: EntryMap, a: Action) {
    match a
    case New(p) => p == "" || p in es
    case Edit(p, c) => p in es && Fits(es[p], c)
    case _ => false
  }

  // Every action leads to the engine, and paths are created before they are edited.
  ghost predicate Leading(es: EntryMap, acts: seq<Action>) {
    && (forall a | a in acts :: Leads(es, a))
    && (forall j | 0 <= j < |acts| && acts[j].Edit? :: New(acts[j].p) in acts[..j])
  }

  lemma LeadingConcat(es: EntryMap, acts: seq<Action>, more: seq<Action>)
    requires Leading(es, acts) && Leading(es, more)
    ensures Leading(es, acts + more)
  {
    hide Leads;
    var all := acts + more;
    forall j | 0 <= j < |all| && all[j].Edit?
      ensures New(all[j].p) in all[..j]
    {
      if j < |acts| {
        assert all[..j] == acts[..j];
      } else {
        assert all[..j] == acts + more[..j - |acts|];
      }
    }
  }

  // A run entry on its way to e.
  ghost predicate Between(r: Entry, e: Entry) {
    && NoDuplicates(r.producers) && (forall x | x in r.producers :: x in e.producers)
    && NoDuplicates(r.consumers) && (forall x | x in r.consumers :: x in e.consumers)
    && (e.fileDependencies == [] ==> r.fileDependencies == [])
    && (r.permanent ==> e.permanent) && (r.excluded ==> e.excluded)
    && r.childrenCount == 0 && r.autoCount
    && (e.producers == [] ==> r.commitRule == ON_TERMINATION && r.fireRule == UPDATE && r.closeCount == 0 && r.isFile)
  }

  ghost predicate AllBetween(es: EntryMap, s: Store) {
    forall k | k in s.entries :: k in es && Between(s.entries[k], es[k])
  }

  // What the rules of a well-formed engine come to for an entry without producers.
  ghost predicate PlainUnproduced(e: Entry) {
    e.producers == [] ==> e.commitRule == ON_TERMINATION && e.fireRule == UPDATE && e.closeCount == 0 && e.isFile
  }

  lemma AppliedBetween(r: Entry, e: Entry, c: Change)
    requires Between(r, e) && Fits(e, c) && PlainUnproduced(e)
    ensures Between(Apply(c, r), e)
  {
  }

  lemma InheritedBetween(s: Store, source: Option<string>, a: Entry, e: Entry)
    requires source.Some? ==> source.value in s.entries && Between(s.entries[source.value], a) && Within(a, e)
    ensures Between(Inherited(s, source), e)
  {
    hide NoDuplicates;
    NothingRepeated();
    assert a.producers != [] ==> a.producers[0] in a.producers;
  }

  lemma NothingRepeated()
    ensures NoDuplicates<string>([])
  {
  }

  lemma LeadingStep(es: EntryMap, s: Store, a: Action, s': Store)
    requires Inheritable(es) && forall k | k in es :: PlainUnproduced(es[k])
    requires AllBetween(es, s) && Leads(es, a) && Step(s, a, s')
    ensures AllBetween(es, s')
    ensures forall k | k in s.entries :: k in s'.entries
    ensures forall k | k in s.entries && !(a.Edit? && a.p == k) :: s'.entries[k] == s.entries[k]
  {
    hide Between, Within, Fits, Apply, Match, Parent, Placed, Inherited, PlainUnproduced;
    if a.New? && a.p != "" && a.p !in s.entries {
      var p := a.p;
      var source :| Source(s.entries, p, source) && s' == Insert(s, p, source);
      PlacedFrame(s, p, Inherited(s, source));
      InheritedBetween(s, source, if source.Some? then es[source.value] else es[p], es[p]);
      Childless(es, s, p);
      hide Step, Created;
    } else if a.Edit? && a.p in s.entries {
      AppliedBetween(s.entries[a.p], es[a.p], a.c);
    }
  }

  lemma Childless(es: EntryMap, s: Store, p: string)
    requires Inheritable(es) && AllBetween(es, s) && p in es
    ensures Parent(p) !in s.entries && Parent(p) != p
    ensures forall e :: WithChild(e, false) == e
  {
    hide Between, Within, Match, Parent;
  }

  lemma {:induction false} LeadingRun(es: EntryMap, acts: seq<Action>, s: Store)
    requires Inheritable(es) && forall k | k in es :: PlainUnproduced(es[k])
    requires Leading(es, acts) && Run(EMPTY_STORE, acts, s)
    ensures AllBetween(es, s)
  {
    hide Step, Inheritable, PlainUnproduced, Between, Leads;
    if acts != [] {
      var init, last := acts[..|acts| - 1], acts[|acts| - 1];
      assert acts == init + [last];
      var m :| Run(EMPTY_STORE, init, m) && Step(m, last, s);
      hide Run;
      LeadingPrefix(es, init, last);
      LeadingRun(es, init, m);
      LeadingStep(es, m, last, s);
    }
  }

  lemma LeadingPrefix(es: EntryMap, init: seq<Action>, last: Action)
    requires Leading(es, init + [last])
    ensures Leading(es, init) && Leads(es, last) && (last.Edit? ==> New(last.p) in init)
  {
    hide Leads;
    var acts := init + [last];
    assert forall a | a in init :: a in acts;
    assert last in acts && acts[..|init|] == init;
    forall j | 0 <= j < |init| && init[j].Edit?
      ensures New(init[j].p) in init[..j]
    {
      assert acts[j] == init[j] && acts[..j] == init[..j];
    }
    assert acts[|init|] == last;
  }

  // The change has taken effect.
  predicate Done(c: Change, r: Entry) {
    match c
    case AddProducer(app) => app in r.producers
    case AddConsumer(app) => app in r.consumers
    case SetCommitRule(rule) => r.commitRule == rule
    case SetFireRule(rule) => r.fireRule == rule
    case SetPermanent(value) => r.permanent == value
    case SetExcluded(value) => r.excluded == value
    case SetKind(isFile) => r.isFile == isFile
    case SetCloseCount(count) => r.closeCount == count
    case PinChildren(count) => r.childrenCount == count
    case SetDependencies(paths) => r.fileDependencies == paths
    case SetInMemory(value) => r.inMemory == value
  }

  lemma DoneStays(c: Change, d: Change, r: Entry, e: Entry)
    requires Fits(e, c) && Fits(e, d)
    ensures Done(c, Apply(c, r)) && (Done(c, r) ==> Done(c, Apply(d, r)))
  {
    hide Appended;
    AppendedHas(r, c);
    AppendedHas(r, d);
  }

  lemma AppendedHas(r: Entry, c: Change)
    ensures c.AddProducer? || c.AddConsumer? ==>
      && (forall x :: x in Appended(r.producers, c.app) <==> x in r.producers || x == c.app)
      && (forall x :: x in Appended(r.consumers, c.app) <==> x in r.consumers || x == c.app)
  {
  }

  lemma CreatedBefore(es: EntryMap, init: seq<Action>, m: Store, k: string)
    requires Inheritable(es) && Leading(es, init) && Run(EMPTY_STORE, init, m) && New(k) in init
    ensures k in m.entries || k == ""
  {
    hide Run, Inheritable;
    RunKeys(init, m);
    assert Drop(k) !in init by {
      assert !Leads(es, Drop(k));
    }
  }

  // Whatever the order, each edit of a leading run has taken effect at its end.
  lemma {:induction false} RunDone(es: EntryMap, acts: seq<Action>, s: Store, k: string, c: Change)
    requires Inheritable(es) && forall k | k in es :: PlainUnproduced(es[k])
    requires Leading(es, acts) && Run(EMPTY_STORE, acts, s) && Edit(k, c) in acts
    ensures k in s.entries && Done(c, s.entries[k])
  {
    hide Step, Inheritable, PlainUnproduced, AllBetween, Fits, Done;
    var init, last := acts[..|acts| - 1], acts[|acts| - 1];
    assert acts == init + [last];
    var m :| Run(EMPTY_STORE, init, m) && Step(m, last, s);
    hide Run;
    assert Leads(es, Edit(k, c));
    LeadingPrefix(es, init, last);
    hide Leading;
    LeadingRun(es, init, m);
    if Edit(k, c) in init {
      RunDone(es, init, m, k, c);
    } else {
      NamedKey(es, k);
      CreatedBefore(es, init, m, k);
    }
    LeadingStep(es, m, last, s);
    if last.Edit? && last.p == k {
      EditLast(m, last, s);
      DoneStays(c, last.c, m.entries[k], es[k]);
    }
  }

  lemma NamedKey(es: EntryMap, k: string)
    requires Inheritable(es) && k in es
    ensures k != ""
  {
  }

  lemma EditLast(m: Store, a: Action, s: Store)
    requires a.Edit? && a.p in m.entries && Step(m, a, s)
    ensures a.p in s.entries && s.entries[a.p] == Apply(a.c, m.entries[a.p])
  {
    hide Apply;
  }

  // ---- The actions of a dump lead to the engine ----

  lemma LeadingNothing(es: EntryMap)
    ensures Leading(es, [])
  {
  }

  lemma SettingLeads(es: EntryMap, p: string, c: Change)
    requires p in es && Fits(es[p], c)
    ensures Leading(es, Setting(p, c)) && Leading(es, [New(p)] + Setting(p, c))
    ensures p != "" ==> Edit(p, c) in Setting(p, c)
  {
    hide Fits;
    if p != "" {
      assert [New(p)] + Setting(p, c) == [New(p), New(p), Edit(p, c)];
      assert [New(p), Edit(p, c)][..1] == [New(p)];
      assert [New(p), New(p), Edit(p, c)][..2] == [New(p), New(p)];
    }
  }

  lemma {:induction false} CreationsLead(es: EntryMap, paths: seq<string>)
    requires forall p | p in paths :: p == "" || p in es
    ensures Leading(es, Creations(paths))
  {
    if paths != [] {
      var init, last := paths[..|paths| - 1], paths[|paths| - 1];
      assert paths == init + [last];
      CreationsLead(es, init);
      hide Leads, Leading;
      LeadingConcat(es, Creations(init), [New(last)]);
    }
  }

  ghost predicate Regulated(es: EntryMap) {
    && "" !in es
    && (forall p | p in es :: WellFormedEntry(es, es[p]) && PlainUnproduced(es[p]))
    && NothingCounted(es)
  }

  // The setters that an item of the dump stands for.
  function ItemChanges(e: Entry): seq<Change> {
    [SetKind(e.isFile), SetCommitRule(e.commitRule), SetFireRule(e.fireRule), SetCloseCount(e.closeCount)]
    + if e.fileDependencies == [] then [] else [SetDependencies(e.fileDependencies)]
  }

  lemma {:induction false} PathActionsOf(es: EntryMap, q: string)
    requires Regulated(es) && q in es
    ensures var item, e := ItemFor(q, es[q]), es[q];
      PathActions(item, q) == [] + Setting(q, SetKind(e.isFile)) + Setting(q, SetCommitRule(e.commitRule))
        + Setting(q, SetFireRule(e.fireRule)) + Setting(q, SetCloseCount(e.closeCount)) + SettingDependencies(q, e.fileDependencies)
  {
    hide Setting, SettingDependencies, Rule, Mode, CloseCount, Dependencies, NoDuplicates, SpaceFree, CommittedText;
    assert WellFormedEntry(es, es[q]) && !Counted(es, q);
    ItemForReads(q, es[q]);
  }

  lemma DependenciesLead(es: EntryMap, q: string, paths: seq<string>)
    requires q in es && paths == es[q].fileDependencies && forall p | p in paths :: p == "" || p in es
    ensures Leading(es, SettingDependencies(q, paths))
    ensures q != "" && paths != [] ==> Edit(q, SetDependencies(paths)) in SettingDependencies(q, paths)
  {
    if q == "" || paths == [] {
      LeadingNothing(es);
    } else {
      CreationsLead(es, paths);
      SettingLeads(es, q, SetDependencies(paths));
      hide Leading, Creations, Setting;
      LeadingConcat(es, Creations(paths), Setting(q, SetDependencies(paths)));
    }
  }

  lemma RegulatedKey(es: EntryMap, q: string)
    requires Regulated(es) && q in es
    ensures q != "" && forall p | p in es[q].fileDependencies :: p == "" || p in es
    ensures PlainUnproduced(es[q])
  {
    assert WellFormedEntry(es, es[q]);
  }

  lemma {:induction false} PathLeads(es: EntryMap, q: string)
    requires Regulated(es) && q in es
    ensures Leading(es, PathActions(ItemFor(q, es[q]), q))
    ensures forall c | c in ItemChanges(es[q]) :: Edit(q, c) in PathActions(ItemFor(q, es[q]), q)
  {
    hide Leading, PathActions, ItemFor, Setting, SettingDependencies, Regulated;
    PathActionsOf(es, q);
    RegulatedKey(es, q);
    var e := es[q];
    var a1, a2, a3, a4 := Setting(q, SetKind(e.isFile)), Setting(q, SetCommitRule(e.commitRule)),
      Setting(q, SetFireRule(e.fireRule)), Setting(q, SetCloseCount(e.closeCount));
    var a5 := SettingDependencies(q, e.fileDependencies);
    PathPartsLead(es, q, a1, a2, a3, a4, a5);
    assert [] + a1 == a1;
  }

  lemma PathPartsLead(es: EntryMap, q: string, a1: seq<Action>, a2: seq<Action>, a3: seq<Action>, a4: seq<Action>, a5: seq<Action>)
    requires q in es && q != "" && forall p | p in es[q].fileDependencies :: p == "" || p in es
    requires var e := es[q];
      && a1 == Setting(q, SetKind(e.isFile)) && a2 == Setting(q, SetCommitRule(e.commitRule))
      && a3 == Setting(q, SetFireRule(e.fireRule)) && a4 == Setting(q, SetCloseCount(e.closeCount))
      && a5 == SettingDependencies(q, e.fileDependencies)
    ensures Leading(es, a1 + a2 + a3 + a4 + a5)
    ensures forall c | c in ItemChanges(es[q]) :: Edit(q, c) in a1 + a2 + a3 + a4 + a5
  {
    hide Leading, Setting, SettingDependencies;
    var e := es[q];
    SettingLeads(es, q, SetKind(e.isFile));
    SettingLeads(es, q, SetCommitRule(e.commitRule));
    SettingLeads(es, q, SetFireRule(e.fireRule));
    SettingLeads(es, q, SetCloseCount(e.closeCount));
    DependenciesLead(es, q, e.fileDependencies);
    LeadingConcat(es, a1, a2);
    LeadingConcat(es, a1 + a2, a3);
    LeadingConcat(es, a1 + a2 + a3, a4);
    LeadingConcat(es, a1 + a2 + a3 + a4, a5);
  }

  lemma {:induction false} StreamLeads(es: EntryMap, items: seq<StreamItem>)
    requires Regulated(es) && forall item | item in items :: exists q | q in es :: item == ItemFor(q, es[q])
    ensures Leading(es, StreamActions(items))
    ensures forall q, c | q in es && ItemFor(q, es[q]) in items && c in ItemChanges(es[q]) :: Edit(q, c) in StreamActions(items)
  {
    hide Leading, Regulated, ItemChanges, PathActions, CommittedText;
    if items == [] {
      LeadingNothing(es);
    } else {
      var init, last := items[..|items| - 1], items[|items| - 1];
      assert items == init + [last] && last in items && forall item | item in init :: item in items;
      StreamLeads(es, init);
      var q :| q in es && last == ItemFor(q, es[q]);
      PathLeads(es, q);
      OneItem(last, q);
      assert last.paths == [q];
      LeadingConcat(es, StreamActions(init), PathActions(last, q));
      forall r, c | r in es && ItemFor(r, es[r]) in items && c in ItemChanges(es[r])
        ensures Edit(r, c) in StreamActions(items)
      {
        if ItemFor(r, es[r]) == last {
          assert ItemFor(r, es[r]).paths == [r];
        }
      }
    }
  }

  lemma {:induction false} ListLeads(es: EntryMap, paths: seq<string>, c: Change)
    requires forall p | p in paths :: p in es && Fits(es[p], c)
    ensures Leading(es, ListActions(paths, c))
    ensures forall p | p in paths && p != "" :: Edit(p, c) in ListActions(paths, c)
  {
    hide Leading, Fits, Setting;
    if paths == [] {
      LeadingNothing(es);
    } else {
      var init, last := paths[..|paths| - 1], paths[|paths| - 1];
      assert paths == init + [last];
      ListLeads(es, init, c);
      SettingLeads(es, last, c);
      LeadingConcat(es, ListActions(init, c), [New(last)] + Setting(last, c));
    }
  }

  lemma {:induction false} StorageLeads(es: EntryMap, paths: seq<string>, inMemory: bool)
    requires forall p | p in paths :: p in es && es[p].inMemory == inMemory
    ensures Leading(es, StorageActions(paths, inMemory))
    ensures forall p | p in paths && p != "" :: Edit(p, SetInMemory(inMemory)) in StorageActions(paths, inMemory)
  {
    hide Leading, Setting;
    if paths == [] {
      LeadingNothing(es);
    } else {
      var init, last := paths[..|paths| - 1], paths[|paths| - 1];
      assert paths == init + [last];
      StorageLeads(es, init, inMemory);
      SettingLeads(es, last, SetInMemory(inMemory));
      LeadingConcat(es, StorageActions(init, inMemory), Setting(last, SetInMemory(inMemory)));
    }
  }

  // What the application's record contributes to q.
  ghost predicate AppEdits(es: EntryMap, app: App, acts: seq<Action>) {
    && (forall q | q in app.inputs && q != "" :: Edit(q, AddConsumer(app.name)) in acts)
    && (forall q | q in app.outputs && q != "" :: Edit(q, AddProducer(app.name)) in acts)
    && (forall q, c | q in es && ItemFor(q, es[q]) in app.streaming && c in ItemChanges(es[q]) :: Edit(q, c) in acts)
  }

  lemma AppLeads(es: EntryMap, app: App)
    requires Regulated(es) && Records(es, app)
    ensures Leading(es, AppActions(app)) && AppEdits(es, app, AppActions(app))
  {
    AppNamesFit(es, app);
    hide Leading, Regulated, ListActions, StreamActions, Strip, ItemChanges, ItemFor;
    var consume, produce := AddConsumer(Strip(app.name)), AddProducer(Strip(app.name));
    ListLeads(es, app.inputs, consume);
    ListLeads(es, app.outputs, produce);
    StreamLeads(es, app.streaming);
    var inputs, outputs := ListActions(app.inputs, consume), ListActions(app.outputs, produce);
    LeadingConcat(es, inputs, outputs);
    LeadingConcat(es, inputs + outputs, StreamActions(app.streaming));
  }

  lemma AppNamesFit(es: EntryMap, app: App)
    requires Regulated(es) && Records(es, app)
    ensures app.inputs != [] || app.outputs != [] ==> Strip(app.name) == app.name
    ensures forall q | q in app.inputs :: q in es && Fits(es[q], AddConsumer(Strip(app.name)))
    ensures forall q | q in app.outputs :: q in es && Fits(es[q], AddProducer(Strip(app.name)))
  {
    hide Strip, SpaceFree, ItemFor, NoDuplicates;
    StripFixpoint(app.name);
    forall q | q in app.inputs || q in app.outputs
      ensures q in es && SpaceFree(app.name)
    {
      assert WellFormedEntry(es, es[q]);
    }
    assert (app.inputs != [] ==> app.inputs[0] in app.inputs) && (app.outputs != [] ==> app.outputs[0] in app.outputs);
  }

  lemma {:induction false} GraphLeads(es: EntryMap, apps: seq<App>)
    requires Regulated(es) && forall app | app in apps :: Records(es, app)
    ensures Leading(es, GraphActions(apps)) && forall app | app in apps :: AppEdits(es, app, GraphActions(apps))
  {
    hide Leading, Regulated, Records, AppActions, ItemChanges, ItemFor;
    if apps == [] {
      LeadingNothing(es);
    } else {
      var init, last := apps[..|apps| - 1], apps[|apps| - 1];
      assert apps == init + [last] && last in apps && forall app | app in init :: app in apps;
      GraphLeads(es, init);
      AppLeads(es, last);
      LeadingConcat(es, GraphActions(init), AppActions(last));
    }
  }

  // The edits that make up an entry of the engine.
  ghost predicate EntryEdits(q: string, e: Entry, acts: seq<Action>) {
    && (forall a | a in e.producers :: Edit(q, AddProducer(a)) in acts)
    && (forall a | a in e.consumers :: Edit(q, AddConsumer(a)) in acts)
    && (e.producers != [] ==> forall c | c in ItemChanges(e) :: Edit(q, c) in acts)
    && (e.permanent ==> Edit(q, SetPermanent(true)) in acts)
    && (e.excluded ==> Edit(q, SetExcluded(true)) in acts)
    && Edit(q, SetInMemory(e.inMemory)) in acts
  }

  lemma DumpLeads(es: EntryMap, doc: Document)
    requires Regulated(es) && Lists(es, doc)
    ensures Leading(es, DocumentActions(doc, false))
    ensures forall q | q in es :: EntryEdits(q, es[q], DocumentActions(doc, false))
  {
    hide Leading, Regulated, Records, ListActions, StorageActions, GraphActions, ItemChanges, ItemFor, AppNames;
    GraphLeads(es, doc.ioGraph);
    ListLeads(es, doc.permanent, SetPermanent(true));
    ListLeads(es, doc.exclude, SetExcluded(true));
    StorageLeads(es, doc.memory, true);
    StorageLeads(es, doc.fileSystem, false);
    var a0, a1, a2 := GraphActions(doc.ioGraph), ListActions(doc.permanent, SetPermanent(true)), ListActions(doc.exclude, SetExcluded(true));
    var a3, a4 := StorageActions(doc.memory, true), StorageActions(doc.fileSystem, false);
    LeadingConcat(es, a1, a2);
    LeadingConcat(es, a1 + a2, a3);
    LeadingConcat(es, a1 + a2 + a3, a4);
    assert TailActions(doc, false) == a1 + a2 + a3 + a4 + [] == a1 + a2 + a3 + a4;
    LeadingConcat(es, a0, a1 + a2 + a3 + a4);
    forall q | q in es
      ensures EntryEdits(q, es[q], DocumentActions(doc, false))
    {
      KeyNamed(es, q);
      GraphEdits(es, doc, q);
    }
  }

  lemma KeyNamed(es: EntryMap, q: string)
    requires Regulated(es) && q in es
    ensures q != ""
  {
  }

  lemma GraphEdits(es: EntryMap, doc: Document, q: string)
    requires Lists(es, doc) && q in es && q != ""
    requires forall app | app in doc.ioGraph :: AppEdits(es, app, GraphActions(doc.ioGraph))
    ensures var e, acts := es[q], GraphActions(doc.ioGraph);
      && (forall a | a in e.producers :: Edit(q, AddProducer(a)) in acts)
      && (forall a | a in e.consumers :: Edit(q, AddConsumer(a)) in acts)
      && (e.producers != [] ==> forall c | c in ItemChanges(e) :: Edit(q, c) in acts)
  {
    hide GraphActions, ItemChanges, ItemFor;
    var e := es[q];
    forall producing, a | a in Apps(e, producing)
      ensures exists app | app in doc.ioGraph :: app.name == a
    {
      assert a in AppNames(es, true) + AppNames(es, false);
    }
    hide AppNames;
    forall a | a in e.producers
      ensures Edit(q, AddProducer(a)) in GraphActions(doc.ioGraph)
      ensures forall c | c in ItemChanges(e) :: Edit(q, c) in GraphActions(doc.ioGraph)
    {
      assert a in Apps(e, true);
      var app :| app in doc.ioGraph && app.name == a;
      assert Records(es, app) && AppEdits(es, app, GraphActions(doc.ioGraph));
    }
    forall a | a in e.consumers
      ensures Edit(q, AddConsumer(a)) in GraphActions(doc.ioGraph)
    {
      assert a in Apps(e, false);
      var app :| app in doc.ioGraph && app.name == a;
      assert Records(es, app) && AppEdits(es, app, GraphActions(doc.ioGraph));
    }
    assert e.producers != [] ==> e.producers[0] in e.producers;
  }

  // ---- The theorem ----

  lemma SameMembers(xs: seq<string>, ys: seq<string>)
    requires NoDuplicates(xs) && NoDuplicates(ys) && forall x :: x in xs <==> x in ys
    ensures Covers(xs, ys)
  {
    hide NoDuplicates;
    DistinctCount(xs);
    DistinctCount(ys);
    assert (set x | x in xs) == (set y | y in ys);
  }

  lemma EntryMade(es: EntryMap, q: string, acts: seq<Action>, r: Entry)
    requires Regulated(es) && q in es && Between(r, es[q]) && EntryEdits(q, es[q], acts)
    requires forall c | Edit(q, c) in acts :: Done(c, r)
    ensures EntryEquals(es[q], r)
  {
    var e := es[q];
    assert WellFormedEntry(es, e) && PlainUnproduced(e) && !Counted(es, q);
    hide NoDuplicates, Covers, SpaceFree;
    forall a
      ensures a in e.producers <==> a in r.producers
      ensures a in e.consumers <==> a in r.consumers
    {
      assert a in e.producers ==> Done(AddProducer(a), r);
      assert a in e.consumers ==> Done(AddConsumer(a), r);
    }
    SameMembers(e.producers, r.producers);
    SameMembers(e.consumers, r.consumers);
    assert e.permanent ==> Done(SetPermanent(true), r);
    assert e.excluded ==> Done(SetExcluded(true), r);
    assert Done(SetInMemory(e.inMemory), r);
    if e.producers != [] {
      ChangesDone(e, r, q, acts);
    }
    CoversItself(e.fileDependencies);
  }

  lemma ChangesDone(e: Entry, r: Entry, q: string, acts: seq<Action>)
    requires forall c | c in ItemChanges(e) :: Edit(q, c) in acts
    requires forall c | Edit(q, c) in acts :: Done(c, r)
    ensures r.isFile == e.isFile && r.commitRule == e.commitRule && r.fireRule == e.fireRule && r.closeCount == e.closeCount
    ensures e.fileDependencies != [] ==> r.fileDependencies == e.fileDependencies
  {
    assert forall c | c in ItemChanges(e) :: Done(c, r);
    assert ItemChanges(e)[0] in ItemChanges(e) && ItemChanges(e)[1] in ItemChanges(e);
    assert ItemChanges(e)[2] in ItemChanges(e) && ItemChanges(e)[3] in ItemChanges(e);
    assert e.fileDependencies != [] ==> ItemChanges(e)[4] in ItemChanges(e);
  }

  lemma DumpMade(es: EntryMap, doc: Document, s: Store)
    requires Regulated(es) && Inheritable(es) && Lists(es, doc)
    requires Run(EMPTY_STORE, DocumentActions(doc, false), s)
    ensures s.entries.Keys == es.Keys && forall p | p in es :: EntryEquals(es[p], s.entries[p])
  {
    hide Run, DocumentActions, Lists, Inheritable, Regulated, Between, EntryEdits, PlainUnproduced, EntryEquals, Leading;
    forall k | k in es
      ensures PlainUnproduced(es[k])
    {
      RegulatedKey(es, k);
    }
    DumpLeads(es, doc);
    LeadingRun(es, DocumentActions(doc, false), s);
    forall p | p in es
      ensures p in s.entries && EntryEquals(es[p], s.entries[p])
    {
      KeyMade(es, DocumentActions(doc, false), s, p);
    }
  }

  lemma {:induction false} KeyMade(es: EntryMap, acts: seq<Action>, s: Store, p: string)
    requires Regulated(es) && Inheritable(es) && forall k | k in es :: PlainUnproduced(es[k])
    requires Leading(es, acts) && Run(EMPTY_STORE, acts, s) && AllBetween(es, s)
    requires p in es && EntryEdits(p, es[p], acts)
    ensures p in s.entries && EntryEquals(es[p], s.entries[p])
  {
    hide Run, Inheritable, Regulated, Between, EntryEdits, Done, PlainUnproduced, EntryEquals, Leading;
    Stored(p, es[p], acts);
    RunDone(es, acts, s, p, SetInMemory(es[p].inMemory));
    forall c | Edit(p, c) in acts
      ensures Done(c, s.entries[p])
    {
      RunDone(es, acts, s, p, c);
    }
    EntryMade(es, p, acts, s.entries[p]);
  }

  lemma Stored(q: string, e: Entry, acts: seq<Action>)
    requires EntryEdits(q, e, acts)
    ensures Edit(q, SetInMemory(e.inMemory)) in acts
  {
  }

  lemma RunRaised(doc: Document, memoryOnly: bool, s: Store) returns (m: Store)
    requires Run(EMPTY_STORE, DocumentActions(doc, memoryOnly), s)
    ensures Run(EMPTY_STORE, DocumentActions(doc, false), m)
    ensures s.entries == if memoryOnly then EditedAll(m, SetInMemory(true)).entries else m.entries
  {
    hide Run, GraphActions, ListActions, StorageActions;
    if memoryOnly {
      var acts, last := DocumentActions(doc, false), [Raise, EditAll(SetInMemory(true))];
      assert DocumentActions(doc, true) == acts + last;
      m := RunSplit(EMPTY_STORE, acts, last, s);
      assert last == [Raise] + [EditAll(SetInMemory(true))];
      var u := RunSplit(m, [Raise], [EditAll(SetInMemory(true))], s);
      RunOneStep(m, Raise, u);
      RunOneStep(u, EditAll(SetInMemory(true)), s);
    } else {
      m := s;
    }
  }

  // A well-formed engine without fixed counts or keys that contain one another survives the round
  // trip, for every traversal order, when its keys give one another nothing they do not hold.
  lemma InheritableRoundTrips(es: EntryMap, memoryOnly: bool)
    requires Inheritable(es) && WellFormed(es) && NothingCounted(es)
    ensures RoundTrips(es, memoryOnly)
  {
    InheritableRegulated(es);
    WellFormedItems(es);
    hide IsDump, Accepted, Lists, EntriesEqual, Run, DocumentActions, Inheritable, WellFormed, Regulated;
    forall name, doc | IsDump(es, name, doc)
      ensures Accepted(doc)
      ensures forall s | Run(EMPTY_STORE, DocumentActions(doc, memoryOnly), s) ::
        EntriesEqual(Remembered(es, memoryOnly), s.entries)
    {
      DumpLists(es, name, doc);
      DumpAccepted(es, doc);
      forall s | Run(EMPTY_STORE, DocumentActions(doc, memoryOnly), s)
        ensures EntriesEqual(Remembered(es, memoryOnly), s.entries)
      {
        var m := RunRaised(doc, memoryOnly, s);
        DumpMade(es, doc, m);
        EqualWhenMade(es, memoryOnly, m, s);
      }
    }
  }

  lemma InheritableRegulated(es: EntryMap)
    requires Inheritable(es) && WellFormed(es) && NothingCounted(es)
    ensures Regulated(es)
  {
    hide NoDuplicates, SpaceFree, Within, Match, Parent, StaysFile, BecomesDirectory, Counted;
    forall p | p in es
      ensures PlainUnproduced(es[p])
    {
      assert WellFormedEntry(es, es[p]) && KindKept(es, p);
      NothingBecomes(es, p);
    }
  }

  lemma NothingBecomes(es: EntryMap, p: string)
    requires NothingCounted(es) && p in es
    ensures !BecomesDirectory(es, p)
  {
    hide Counted, DependsOn;
    assert forall a, d :: !ProducesCounted(es, a, d) by {
      NoneProduced(es);
    }
  }

  lemma NoneProduced(es: EntryMap)
    requires NothingCounted(es)
    ensures forall a, d :: !ProducesCounted(es, a, d)
  {
  }

  lemma EqualWhenMade(es: EntryMap, memoryOnly: bool, m: Store, s: Store)
    requires "" !in es && m.entries.Keys == es.Keys && forall p | p in es :: EntryEquals(es[p], m.entries[p])
    requires s.entries == if memoryOnly then EditedAll(m, SetInMemory(true)).entries else m.entries
    ensures EntriesEqual(Remembered(es, memoryOnly), s.entries)
  {
    hide Covers;
    var rs := Remembered(es, memoryOnly);
    assert rs.Keys == es.Keys == s.entries.Keys;
    assert |rs| == |rs.Keys| && |s.entries| == |s.entries.Keys|;
  }
}
