// The stream of dynamic rule updates: the API server filters datagrams and merges the accepted ones
// into the engine.
module Updates {
  import opened Text
  import opened Entries
  import opened Store
  import opened Engines

  // What a datagram holds once read: nothing parseable, or a path, a workflow name and a rule, each
  // "" or NoRule when absent; a rule text that does not parse is a BadRule.
  datatype RuleText = NoRule | BadRule | Rule(entry: Entry)

  datatype Datagram = Garbage | Update(path: string, workflow: string, rule: RuleText)

  predicate Accepts(d: Datagram, workflow: string) {
    d.Update? && d.path != "" && d.workflow != "" && d.rule.Rule? && d.workflow == workflow
  }

  function Merged(es: EntryMap, p: string, e: Entry): EntryMap {
    es[p := if p in es then Merge(es[p], e) else e]
  }

  function AfterAll(es: EntryMap, ds: seq<Datagram>, workflow: string): EntryMap {
    if ds == [] then es
    else
      var before, d := AfterAll(es, ds[..|ds| - 1], workflow), ds[|ds| - 1];
      if Accepts(d, workflow) then Merged(before, d.path, d.rule.entry) else before
  }

  // The receive loop on the datagrams it receives.
  method Serve(engine: Engine, ds: seq<Datagram>)
    modifies engine`entries
    ensures engine.entries == AfterAll(old(engine.entries), ds, engine.workflowName)
  {
    for i := 0 to |ds|
      invariant engine.entries == AfterAll(old(engine.entries), ds[..i], engine.workflowName)
    {
      assert ds[..i + 1][..i] == ds[..i];
      match ds[i]
      case Garbage =>
      case Update(path, workflow, rule) =>
        if path == "" {
          continue;
        }
        if workflow == "" {
          continue;
        }
        if !rule.Rule? {
          continue;
        }
        if workflow == engine.workflowName {
          engine.AddEntry(path, rule.entry);
        }
    }
    assert ds[..|ds|] == ds;
  }

  // ---- Updates as seen from one path ----

  // The rules accepted for p, in order.
  function RulesFor(ds: seq<Datagram>, workflow: string, p: string): seq<Entry> {
    if ds == [] then []
    else
      var d := ds[|ds| - 1];
      RulesFor(ds[..|ds| - 1], workflow, p)
      + (if Accepts(d, workflow) && d.path == p then [d.rule.entry] else [])
  }

  // The rules for p are those of the messages that name p and the engine's own workflow, whatever
  // else is received.
  lemma {:induction false} RulesForRead(ds: seq<Datagram>, workflow: string, p: string, e: Entry)
    ensures e in RulesFor(ds, workflow, p) <==> p != "" && workflow != "" && Update(p, workflow, Rule(e)) in ds
  {
    if ds != [] {
      var init, last := ds[..|ds| - 1], ds[|ds| - 1];
      assert ds == init + [last];
      RulesForRead(init, workflow, p, e);
    }
  }

  // One datagram changes nothing unless it is such a message; then it stores or merges its rule.
  lemma OneDatagram(es: EntryMap, d: Datagram, workflow: string)
    ensures AfterAll(es, [d], workflow) ==
      if workflow != "" && d.Update? && d.workflow == workflow && d.path != "" && d.rule.Rule? then
        es[d.path := if d.path in es then Merge(es[d.path], d.rule.entry) else d.rule.entry]
      else
        es
  {
    hide Merge;
    assert [d][..0] == [] && AfterAll(es, [], workflow) == es;
  }

  // All of a sequence of rules merged into one entry.
  function Folded(e: Entry, rules: seq<Entry>): Entry {
    if rules == [] then e else Merge(Folded(e, rules[..|rules| - 1]), rules[|rules| - 1])
  }

  function EntryAfter(found: Option<Entry>, rules: seq<Entry>): Option<Entry> {
    match found
    case Some(e) => Some(Folded(e, rules))
    case None => if rules == [] then None else Some(Folded(rules[0], rules[1..]))
  }

  function At(es: EntryMap, p: string): Option<Entry> {
    if p in es then Some(es[p]) else None
  }

  // What the stream leaves at p depends on nothing but the entry it found there and the rules
  // accepted for p.
  lemma {:induction false} StreamAtPath(es: EntryMap, ds: seq<Datagram>, workflow: string, p: string)
    ensures At(AfterAll(es, ds, workflow), p) == EntryAfter(At(es, p), RulesFor(ds, workflow, p))
  {
    hide Merge;
    if ds != [] {
      var init, d := ds[..|ds| - 1], ds[|ds| - 1];
      StreamAtPath(es, init, workflow, p);
      var rules := RulesFor(init, workflow, p);
      if Accepts(d, workflow) && d.path == p {
        OneMoreRule(At(es, p), rules, d.rule.entry);
      } else {
        assert rules + [] == rules;
      }
    }
  }

  lemma OneMoreRule(found: Option<Entry>, rules: seq<Entry>, e: Entry)
    ensures EntryAfter(found, rules + [e]) ==
      match EntryAfter(found, rules) case Some(f) => Some(Merge(f, e)) case None => Some(e)
  {
    hide Merge;
    assert (rules + [e])[..|rules|] == rules;
    if found.None? && rules != [] {
      assert (rules + [e])[1..] == rules[1..] + [e];
      assert (rules[1..] + [e])[..|rules| - 1] == rules[1..];
    }
  }

  // Streams with the same rules for every path come to the same: updates of different paths commute.
  lemma StreamsAgree(es: EntryMap, ds: seq<Datagram>, others: seq<Datagram>, workflow: string)
    requires forall p :: RulesFor(ds, workflow, p) == RulesFor(others, workflow, p)
    ensures AfterAll(es, ds, workflow) == AfterAll(es, others, workflow)
  {
    hide AfterAll;
    var a, b := AfterAll(es, ds, workflow), AfterAll(es, others, workflow);
    forall p
      ensures At(a, p) == At(b, p)
    {
      StreamAtPath(es, ds, workflow, p);
      StreamAtPath(es, others, workflow, p);
    }
    SameAtEachPath(a, b);
  }

  lemma SameAtEachPath(a: EntryMap, b: EntryMap)
    requires forall p :: At(a, p) == At(b, p)
    ensures a == b
  {
    forall p
      ensures p in a <==> p in b
      ensures p in a && p in b ==> a[p] == b[p]
    {
      assert At(a, p) == At(b, p);
    }
  }

  lemma UpdatesCommute(es: EntryMap, ds: seq<Datagram>, d: Datagram, e: Datagram, more: seq<Datagram>, workflow: string)
    requires d.Update? && e.Update? && d.path != e.path
    ensures AfterAll(es, ds + [d, e] + more, workflow) == AfterAll(es, ds + [e, d] + more, workflow)
  {
    forall p
      ensures RulesFor(ds + [d, e] + more, workflow, p) == RulesFor(ds + [e, d] + more, workflow, p)
    {
      RulesConcat(ds + [d, e], more, workflow, p);
      RulesConcat(ds + [e, d], more, workflow, p);
      RulesConcat(ds, [d, e], workflow, p);
      RulesConcat(ds, [e, d], workflow, p);
      RulesOfTwo(d, e, workflow, p);
      RulesOfTwo(e, d, workflow, p);
    }
    StreamsAgree(es, ds + [d, e] + more, ds + [e, d] + more, workflow);
  }

  lemma RulesOfTwo(d: Datagram, e: Datagram, workflow: string, p: string)
    ensures RulesFor([d, e], workflow, p) ==
      (if Accepts(d, workflow) && d.path == p then [d.rule.entry] else [])
      + (if Accepts(e, workflow) && e.path == p then [e.rule.entry] else [])
  {
    assert [d, e][..1] == [d] && [d][..0] == [];
    assert RulesFor([d], workflow, p) == [] + (if Accepts(d, workflow) && d.path == p then [d.rule.entry] else []);
  }

  lemma {:induction false} RulesConcat(ds: seq<Datagram>, more: seq<Datagram>, workflow: string, p: string)
    ensures RulesFor(ds + more, workflow, p) == RulesFor(ds, workflow, p) + RulesFor(more, workflow, p)
  {
    hide Accepts;
    if more == [] {
      assert ds + more == ds;
    } else {
      var all, init := ds + more, more[..|more| - 1];
      assert all[..|all| - 1] == ds + init;
      RulesConcat(ds, init, workflow, p);
    }
  }

  // ---- What a fold of rules amounts to ----

  // Merging a batch beforehand changes nothing.
  lemma {:induction false} FoldedInBatches(e: Entry, rules: seq<Entry>, more: seq<Entry>)
    requires more != []
    ensures Folded(e, rules + more) == Merge(Folded(e, rules), Folded(more[0], more[1..]))
  {
    hide Merge;
    var all, init, last := rules + more, more[..|more| - 1], more[|more| - 1];
    assert all[..|all| - 1] == rules + init;
    if |more| == 1 {
      assert rules + init == rules && more[1..] == [];
    } else {
      FoldedInBatches(e, rules, init);
      assert more[1..][..|more| - 2] == init[1..];
      MergeAssociative(Folded(e, rules), Folded(init[0], init[1..]), last);
    }
  }

  function Sum(rules: seq<Entry>, measure: Entry -> int): int {
    if rules == [] then 0 else Sum(rules[..|rules| - 1], measure) + measure(rules[|rules| - 1])
  }

  function Concatenated(rules: seq<Entry>, list: Entry -> seq<string>): seq<string> {
    if rules == [] then [] else Concatenated(rules[..|rules| - 1], list) + list(rules[|rules| - 1])
  }

  // Lists concatenate and counts add.
  lemma {:induction false} FoldedSums(e: Entry, rules: seq<Entry>)
    ensures var f := Folded(e, rules);
      && f.producers == e.producers + Concatenated(rules, (r: Entry) => r.producers)
      && f.consumers == e.consumers + Concatenated(rules, (r: Entry) => r.consumers)
      && f.fileDependencies == e.fileDependencies + Concatenated(rules, (r: Entry) => r.fileDependencies)
      && f.childrenCount == e.childrenCount + Sum(rules, (r: Entry) => r.childrenCount)
      && f.closeCount == e.closeCount + Sum(rules, (r: Entry) => r.closeCount)
  {
    if rules != [] {
      FoldedSums(e, rules[..|rules| - 1]);
    }
  }

  // Flags combine with OR, or with AND for the automatic count and the file kind, and the last
  // commit and fire rules win.
  lemma {:induction false} FoldedFlags(e: Entry, rules: seq<Entry>)
    ensures var f := Folded(e, rules);
      && (f.autoCount <==> e.autoCount && forall r | r in rules :: r.autoCount)
      && (f.isFile <==> e.isFile && forall r | r in rules :: r.isFile)
      && (f.inMemory <==> e.inMemory || exists r | r in rules :: r.inMemory)
      && (f.permanent <==> e.permanent || exists r | r in rules :: r.permanent)
      && (f.excluded <==> e.excluded || exists r | r in rules :: r.excluded)
      && f.commitRule == (if rules == [] then e else rules[|rules| - 1]).commitRule
      && f.fireRule == (if rules == [] then e else rules[|rules| - 1]).fireRule
  {
    hide Merge;
    if rules != [] {
      var init, last := rules[..|rules| - 1], rules[|rules| - 1];
      FoldedFlags(e, init);
      MergedFlags(Folded(e, init), last);
      forall r
        ensures r in rules <==> r in init || r == last
      {
        assert rules == init + [last];
      }
    }
  }

  lemma MergedFlags(e: Entry, r: Entry)
    ensures var f := Merge(e, r);
      && f.autoCount == (e.autoCount && r.autoCount) && f.isFile == (e.isFile && r.isFile)
      && f.inMemory == (e.inMemory || r.inMemory) && f.permanent == (e.permanent || r.permanent)
      && f.excluded == (e.excluded || r.excluded) && f.commitRule == r.commitRule && f.fireRule == r.fireRule
  {
  }
}
