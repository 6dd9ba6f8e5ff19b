// capiocl::engine::Engine run by one thread: methods update the entry map in place, and each is
// specified by the relation or run of Store that it realises. Loops over the hash map pick the
// remaining keys in any order.
module Engines {
  import opened Text
  import opened Glob
  import opened Paths
  import opened Entries
  import opened Store

  const DEFAULT_WORKFLOW := "CAPIO"

  // isProducer and isConsumer answer from every key that matches the path.
  predicate PlaysRole(es: EntryMap, producing: bool, p: string, app: string) {
    p == "" || exists k | k in es :: Match(k, p) && app in (if producing then es[k].producers else es[k].consumers)
  }

  // A call that only asks. Getters create a path they do not find; role queries create it when the
  // answer is no.
  datatype Query = Get(p: string) | Role(producing: bool, p: string, app: string)

  ghost predicate Asked(s: Store, query: Query, s': Store) {
    if query.Role? && PlaysRole(s.entries, query.producing, query.p, query.app) then s' == s
    else Created(s, query.p, s')
  }

  class Engine {
    var entries: EntryMap
    var storeAllInMemory: bool
    var workflowName: string

    ghost function State(): (s: Store)
      reads this
    {
      Store(entries, storeAllInMemory)
    }

    constructor (workflowVariable: Option<string>)
      ensures State() == EMPTY_STORE
      ensures workflowName == if workflowVariable.Some? then workflowVariable.value else "CAPIO"
    {
      entries := map[];
      storeAllInMemory := false;
      workflowName := if workflowVariable.Some? then workflowVariable.value else DEFAULT_WORKFLOW;
    }

    method SetWorkflowName(name: string)
      modifies this`workflowName
      ensures workflowName == name
    {
      workflowName := name;
    }

    // _newFile
    method NewFile(path: string)
      modifies this`entries
      ensures Created(old(State()), path, State())
      ensures if path == "" || path in old(entries) then entries == old(entries) else CreationRead(old(State()), path, State())
    {
      if path == "" || path in entries {
        return;
      }
      var matchKey, matchSize := "", 0;
      var todo := entries.Keys;
      while todo != {}
        invariant todo <= entries.Keys && entries == old(entries)
        invariant matchSize == |matchKey|
        invariant matchSize > 0 ==> Matching(entries, path, matchKey)
        invariant forall k | k in entries.Keys - todo && Matching(entries, path, k) :: |k| <= matchSize
      {
        var filename :| filename in todo;
        todo := todo - {filename};
        if Match(filename, path) && |filename| > matchSize {
          matchSize := |filename|;
          matchKey := filename;
        }
      }
      var entry := DEFAULT_ENTRY;
      if matchSize > 0 {
        entry := entries[matchKey];
        entry := entry.(inMemory := if storeAllInMemory then true else entry.inMemory);
      } else {
        entry := entry.(inMemory := storeAllInMemory);
      }
      ghost var source := if matchSize > 0 then Some(matchKey) else None;
      assert Source(entries, path, source) && entry == Inherited(State(), source);
      entries := entries[path := entry];
      ComputeDirectoryEntryCount(path);
      CreatedReads(old(State()), path, State());
    }

    method ComputeDirectoryEntryCount(path: string)
      modifies this`entries
      ensures entries == CountChild(old(entries), path)
      ensures var d := Parent(path);
        entries == if d != "" && d in old(entries) && old(entries)[d].autoCount then
          old(entries)[d := old(entries)[d].(childrenCount := old(entries)[d].childrenCount + 1, isFile := false)]
        else
          old(entries)
    {
      var parent := Parent(path);
      if parent != "" {
        if parent in entries {
          var entry := entries[parent];
          if entry.autoCount {
            entries := entries[parent := entry.(childrenCount := entry.childrenCount + 1, isFile := false)];
          }
        }
      }
    }

    // ---- Setters: look up, create when missing, retry ----

    // The name is stripped in the caller's variable, here returned.
    method AddProducer(path: string, producer: string) returns (name: string)
      modifies this`entries
      ensures Updated(old(State()), path, Change.AddProducer(Strip(producer)), State())
      ensures path != "" && path in old(entries) ==>
        var known, name := old(entries)[path].producers, Strip(producer);
        entries == old(entries)[path := old(entries)[path].(producers := if name in known then known else known + [name])]
      ensures path != "" ==> path in entries && Strip(producer) in entries[path].producers
      ensures name == if path == "" then producer else Strip(producer)
      decreases path !in entries
    {
      if path == "" {
        return producer;
      }
      name := Strip(producer);
      if path in entries {
        UpdateKnown(State(), path, Change.AddProducer(Strip(producer)));
        var entry := entries[path];
        if name !in entry.producers {
          entry := entry.(producers := entry.producers + [name]);
        }
        entries := entries[path := entry];
        return;
      }
      NewFile(path);
      StripFixpoint(producer);
      name := AddProducer(path, name);
    }

    method AddConsumer(path: string, consumer: string) returns (name: string)
      modifies this`entries
      ensures Updated(old(State()), path, Change.AddConsumer(Strip(consumer)), State())
      ensures path != "" && path in old(entries) ==>
        var known, name := old(entries)[path].consumers, Strip(consumer);
        entries == old(entries)[path := old(entries)[path].(consumers := if name in known then known else known + [name])]
      ensures path != "" ==> path in entries && Strip(consumer) in entries[path].consumers
      ensures name == if path == "" then consumer else Strip(consumer)
      decreases path !in entries
    {
      if path == "" {
        return consumer;
      }
      name := Strip(consumer);
      if path in entries {
        UpdateKnown(State(), path, Change.AddConsumer(Strip(consumer)));
        var entry := entries[path];
        if name !in entry.consumers {
          entry := entry.(consumers := entry.consumers + [name]);
        }
        entries := entries[path := entry];
        return;
      }
      NewFile(path);
      StripFixpoint(consumer);
      name := AddConsumer(path, name);
    }

    // The rule is checked after the empty path and before anything changes; false stands for the
    // exception thrown on an unknown rule.
    method SetCommitRule(path: string, rule: string) returns (valid: bool)
      modifies this`entries
      ensures valid == (path == "" || rule in ["on_close", "on_file", "on_n_files", "on_termination"])
      ensures valid ==> Updated(old(State()), path, Change.SetCommitRule(rule), State())
      ensures path != "" && path in old(entries) && valid ==> entries == old(entries)[path := old(entries)[path].(commitRule := rule)]
      ensures path != "" && valid ==> path in entries && entries[path].commitRule == rule
      ensures !valid ==> unchanged(this)
      decreases path !in entries
    {
      if path == "" {
        return true;
      }
      if !ValidCommitRule(rule) {
        return false;
      }
      if path in entries {
        UpdateKnown(State(), path, Change.SetCommitRule(rule));
        entries := entries[path := entries[path].(commitRule := rule)];
        return true;
      }
      NewFile(path);
      valid := SetCommitRule(path, rule);
    }

    method SetFireRule(path: string, rule: string) returns (valid: bool)
      modifies this`entries
      ensures valid == (path == "" || rule in ["update", "no_update"])
      ensures valid ==> Updated(old(State()), path, Change.SetFireRule(rule), State())
      ensures path != "" && path in old(entries) && valid ==> entries == old(entries)[path := old(entries)[path].(fireRule := rule)]
      ensures path != "" && valid ==> path in entries && entries[path].fireRule == rule
      ensures !valid ==> unchanged(this)
      decreases path !in entries
    {
      if path == "" {
        return true;
      }
      if !ValidFireRule(rule) {
        return false;
      }
      if path in entries {
        UpdateKnown(State(), path, Change.SetFireRule(rule));
        entries := entries[path := entries[path].(fireRule := rule)];
        return true;
      }
      NewFile(path);
      valid := SetFireRule(path, rule);
    }

    method SetPermanent(path: string, value: bool)
      modifies this`entries
      ensures Updated(old(State()), path, Change.SetPermanent(value), State())
      ensures path != "" && path in old(entries) ==> entries == old(entries)[path := old(entries)[path].(permanent := value)]
      ensures path != "" ==> path in entries && entries[path].permanent == value
      decreases path !in entries
    {
      if path == "" {
        return;
      }
      if path in entries {
        UpdateKnown(State(), path, Change.SetPermanent(value));
        entries := entries[path := entries[path].(permanent := value)];
        return;
      }
      NewFile(path);
      SetPermanent(path, value);
    }

    method SetExclude(path: string, value: bool)
      modifies this`entries
      ensures Updated(old(State()), path, SetExcluded(value), State())
      ensures path != "" && path in old(entries) ==> entries == old(entries)[path := old(entries)[path].(excluded := value)]
      ensures path != "" ==> path in entries && entries[path].excluded == value
      decreases path !in entries
    {
      if path == "" {
        return;
      }
      if path in entries {
        UpdateKnown(State(), path, SetExcluded(value));
        entries := entries[path := entries[path].(excluded := value)];
        return;
      }
      NewFile(path);
      SetExclude(path, value);
    }

    method SetDirectory(path: string)
      modifies this`entries
      ensures Updated(old(State()), path, SetKind(false), State())
      ensures path != "" && path in old(entries) ==> entries == old(entries)[path := old(entries)[path].(isFile := false)]
      ensures path != "" ==> path in entries && entries[path].isFile == false
      decreases path !in entries
    {
      if path == "" {
        return;
      }
      if path in entries {
        UpdateKnown(State(), path, SetKind(false));
        entries := entries[path := entries[path].(isFile := false)];
        return;
      }
      NewFile(path);
      SetDirectory(path);
    }

    method SetFile(path: string)
      modifies this`entries
      ensures Updated(old(State()), path, SetKind(true), State())
      ensures path != "" && path in old(entries) ==> entries == old(entries)[path := old(entries)[path].(isFile := true)]
      ensures path != "" ==> path in entries && entries[path].isFile == true
      decreases path !in entries
    {
      if path == "" {
        return;
      }
      if path in entries {
        UpdateKnown(State(), path, SetKind(true));
        entries := entries[path := entries[path].(isFile := true)];
        return;
      }
      NewFile(path);
      SetFile(path);
    }

    method SetCommitedCloseNumber(path: string, num: int)
      modifies this`entries
      ensures Updated(old(State()), path, SetCloseCount(num), State())
      ensures path != "" && path in old(entries) ==> entries == old(entries)[path := old(entries)[path].(closeCount := num)]
      ensures path != "" ==> path in entries && entries[path].closeCount == num
      decreases path !in entries
    {
      if path == "" {
        return;
      }
      if path in entries {
        UpdateKnown(State(), path, SetCloseCount(num));
        entries := entries[path := entries[path].(closeCount := num)];
        return;
      }
      NewFile(path);
      SetCommitedCloseNumber(path, num);
    }

    method SetStoreFileInMemory(path: string)
      modifies this`entries
      ensures Updated(old(State()), path, SetInMemory(true), State())
      ensures path != "" && path in old(entries) ==> entries == old(entries)[path := old(entries)[path].(inMemory := true)]
      ensures path != "" ==> path in entries && entries[path].inMemory == true
      decreases path !in entries
    {
      if path == "" {
        return;
      }
      if path in entries {
        UpdateKnown(State(), path, SetInMemory(true));
        entries := entries[path := entries[path].(inMemory := true)];
        return;
      }
      NewFile(path);
      SetStoreFileInMemory(path);
    }

    method SetStoreFileInFileSystem(path: string)
      modifies this`entries
      ensures Updated(old(State()), path, SetInMemory(false), State())
      ensures path != "" && path in old(entries) ==> entries == old(entries)[path := old(entries)[path].(inMemory := false)]
      ensures path != "" ==> path in entries && entries[path].inMemory == false
      decreases path !in entries
    {
      if path == "" {
        return;
      }
      if path in entries {
        UpdateKnown(State(), path, SetInMemory(false));
        entries := entries[path := entries[path].(inMemory := false)];
        return;
      }
      NewFile(path);
      SetStoreFileInFileSystem(path);
    }

    // ---- Calls that touch many entries ----

    method NewFiles(paths: seq<string>)
      modifies this`entries
      ensures Run(old(State()), Creations(paths), State())
      ensures old(entries).Keys <= entries.Keys
    {
      for i := 0 to |paths|
        invariant Run(old(State()), Creations(paths[..i]), State())
      {
        ghost var before := State();
        NewFile(paths[i]);
        RunSnoc(old(State()), Creations(paths[..i]), before, New(paths[i]), State());
        assert paths[..i + 1][..i] == paths[..i];
      }
      assert paths[..|paths|] == paths;
      CreationsCreate(old(State()), paths, State());
    }

    // Dependencies become entries, in order, before path is looked up; the commit rule stays.
    method SetFileDeps(path: string, dependencies: seq<string>)
      modifies this`entries
      ensures Run(old(State()), SettingDependencies(path, dependencies), State())
      ensures path == "" || dependencies == [] ==> entries == old(entries)
      ensures path != "" && dependencies != [] ==> path in entries && entries[path].fileDependencies == dependencies
      decreases path !in entries
    {
      if path == "" || dependencies == [] {
        return;
      }
      NewFiles(dependencies);
      hide Run, Creations, Created, Updated, Setting, SettingDependencies, Parent, Match, Edited, Apply;
      ghost var m := State();
      if path in entries {
        entries := entries[path := entries[path].(fileDependencies := dependencies)];
        DependenciesEdited(m, path, dependencies);
        KnownDependencies(old(State()), path, dependencies, m);
      } else {
        NewFile(path);
        ghost var created := State();
        CreatedExists(m, path, created);
        SetFileDeps(path, dependencies);
        RetriedDependencies(old(State()), path, dependencies, m, created, State());
      }
    }

    method SetAllDirectories()
      modifies this`entries
      ensures State() == EditedAll(old(State()), SetKind(false))
      ensures entries.Keys == old(entries).Keys && forall q | q in entries ::
        entries[q] == if q == "" then old(entries)[q] else old(entries)[q].(isFile := false)
    {
      hide Updated, Created;
      var todo := entries.Keys;
      while todo != {}
        invariant todo <= old(entries).Keys == entries.Keys
        invariant forall q | q in entries ::
          entries[q] == if q == "" || q in todo then old(entries)[q] else Apply(SetKind(false), old(entries)[q])
      {
        var path :| path in todo;
        todo := todo - {path};
        ghost var before := State();
        SetDirectory(path);
        UpdatedKnown(before, path, SetKind(false), State());
      }
    }

    method SetDirectoryFileCount(path: string, num: int)
      modifies this`entries
      ensures Pinned(old(State()), path, num, State())
      ensures path == "" ==> entries == old(entries)
      ensures path != "" ==> path in entries && entries[path].childrenCount == num && !entries[path].autoCount
      ensures path != "" ==> forall q | q in entries && q != "" :: !entries[q].isFile
      decreases path !in entries
    {
      if path == "" {
        return;
      }
      SetAllDirectories();
      if path in entries {
        entries := entries[path := entries[path].(childrenCount := num, autoCount := false)];
        assert Created(old(State()), path, old(State()));
        return;
      }
      NewFile(path);
      ghost var created := State();
      SetDirectoryFileCount(path, num);
      MarkBeforeCreate(old(State()), path, num, created, State());
    }

    method SetAllStoreInMemory()
      modifies this`entries, this`storeAllInMemory
      ensures State() == EditedAll(old(State()), SetInMemory(true)).(allInMemory := true)
      ensures storeAllInMemory && entries.Keys == old(entries).Keys && forall q | q in entries ::
        entries[q] == if q == "" then old(entries)[q] else old(entries)[q].(inMemory := true)
    {
      storeAllInMemory := true;
      hide Updated, Created;
      var todo := entries.Keys;
      while todo != {}
        invariant todo <= old(entries).Keys == entries.Keys
        invariant storeAllInMemory
        invariant forall q | q in entries ::
          entries[q] == if q == "" || q in todo then old(entries)[q] else Apply(SetInMemory(true), old(entries)[q])
      {
        var path :| path in todo;
        todo := todo - {path};
        ghost var before := State();
        SetStoreFileInMemory(path);
        UpdatedKnown(before, path, SetInMemory(true), State());
      }
      assert entries == EditedAll(old(State()), SetInMemory(true)).entries;
    }

    method Remove(path: string)
      modifies this`entries
      ensures State() == Dropped(old(State()), path)
      ensures entries == map q | q in old(entries) && q != path :: old(entries)[q]
    {
      if path !in entries {
        return;
      }
      entries := entries - {path};
    }

    // ---- Whole entries ----

    // The bulk form: no rule is checked and no list is cleaned.
    method Add(path: string, producers: seq<string>, consumers: seq<string>, commitRule: string,
               fireRule: string, permanent: bool, exclude: bool, dependencies: seq<string>)
      modifies this`entries
      ensures path == "" ==> unchanged(this)
      ensures path != "" ==> exists m ::
        && Created(old(State()), path, m)
        && path in m.entries
        && State() == m.(entries := m.entries[path := m.entries[path].(
             producers := producers, consumers := consumers, commitRule := commitRule, fireRule := fireRule,
             permanent := permanent, excluded := exclude, fileDependencies := dependencies)])
    {
      if path == "" {
        return;
      }
      NewFile(path);
      ghost var m := State();
      if path !in old(entries) {
        CreationFrame(old(State()), path, m);
      }
      entries := entries[path := entries[path].(
        producers := producers, consumers := consumers, commitRule := commitRule, fireRule := fireRule,
        permanent := permanent, excluded := exclude, fileDependencies := dependencies)];
    }

    // A new path takes the entry as it is, without matching or counting; a known one merges it.
    method AddEntry(path: string, entry: Entry)
      modifies this`entries
      ensures entries == old(entries)[path := if path in old(entries) then Merge(old(entries)[path], entry) else entry]
    {
      if path !in entries {
        entries := entries[path := entry];
      } else {
        entries := entries[path := Merge(entries[path], entry)];
      }
    }

    // ---- Queries: they create what they do not find ----

    method GetCommitRule(path: string) returns (rule: string)
      modifies this`entries
      ensures Asked(old(State()), Get(path), State())
      ensures path == "" ==> rule == ON_TERMINATION
      ensures path != "" ==> path in entries && rule == entries[path].commitRule
      decreases path !in entries
    {
      if path == "" {
        return ON_TERMINATION;
      }
      if path in entries {
        return entries[path].commitRule;
      }
      NewFile(path);
      rule := GetCommitRule(path);
    }

    // On a path it had to create, isFile answers whether the new entry is permanent.
    method IsFile(path: string) returns (answer: bool)
      modifies this`entries
      ensures Asked(old(State()), Get(path), State())
      ensures path == "" ==> answer
      ensures path in old(entries) && path != "" ==> answer == old(entries)[path].isFile
      ensures path !in old(entries) && path != "" ==> path in entries && answer == entries[path].permanent
    {
      if path == "" {
        return true;
      }
      if path in entries {
        return entries[path].isFile;
      }
      NewFile(path);
      CreationFrame(old(State()), path, State());
      answer := entries[path].permanent;
    }

    method IsProducer(path: string, app: string) returns (answer: bool)
      modifies this`entries
      ensures answer == PlaysRole(old(entries), true, path, app)
      ensures answer <==> path == "" || exists k | k in old(entries) :: Match(k, path) && app in old(entries)[k].producers
      ensures Asked(old(State()), Role(true, path, app), State())
    {
      if path == "" {
        return true;
      }
      var todo := entries.Keys;
      while todo != {}
        invariant todo <= entries.Keys
        invariant forall k | k in entries.Keys - todo && Match(k, path) :: app !in entries[k].producers
      {
        var pattern :| pattern in todo;
        todo := todo - {pattern};
        if Match(pattern, path) && app in entries[pattern].producers {
          return true;
        }
      }
      NewFile(path);
      answer := false;
    }

    method IsConsumer(path: string, app: string) returns (answer: bool)
      modifies this`entries
      ensures answer == PlaysRole(old(entries), false, path, app)
      ensures answer <==> path == "" || exists k | k in old(entries) :: Match(k, path) && app in old(entries)[k].consumers
      ensures Asked(old(State()), Role(false, path, app), State())
    {
      if path == "" {
        return true;
      }
      var todo := entries.Keys;
      while todo != {}
        invariant todo <= entries.Keys
        invariant forall k | k in entries.Keys - todo && Match(k, path) :: app !in entries[k].consumers
      {
        var pattern :| pattern in todo;
        todo := todo - {pattern};
        if Match(pattern, path) && app in entries[pattern].consumers {
          return true;
        }
      }
      NewFile(path);
      answer := false;
    }

    // operator==
    method Equals(other: Engine) returns (equal: bool)
      ensures equal == EntriesEqual(entries, other.entries)
      ensures RepetitionFree(entries) ==> (equal <==> SameMap(entries, other.entries))
    {
      if RepetitionFree(entries) {
        EqualityDecidesSameMap(entries, other.entries);
      }
      if |entries| != |other.entries| {
        return false;
      }
      var todo := entries.Keys;
      while todo != {}
        invariant todo <= entries.Keys
        invariant forall p | p in entries.Keys - todo :: p in other.entries && EntryEquals(entries[p], other.entries[p])
      {
        var path :| path in todo;
        todo := todo - {path};
        if path !in other.entries || !EntryEquals(entries[path], other.entries[path]) {
          return false;
        }
      }
      equal := true;
    }
  }

  // ---- Role queries do not see lazily created entries ----

  // On an engine with one key the answer is membership in that key's own list.
  lemma RoleOfOneKey(k: string, e: Entry, p: string, app: string)
    requires p != "" && Match(k, p)
    ensures PlaysRole(map[k := e], true, p, app) <==> app in e.producers
    ensures PlaysRole(map[k := e], false, p, app) <==> app in e.consumers
  {
    hide Match;
    assert k in map[k := e];
  }

  lemma LoneCreationInvisible(s: Store, p: string, s': Store, producing: bool, q: string, app: string)
    requires Lone(p) && Created(s, p, s')
    ensures PlaysRole(s'.entries, producing, q, app) <==> PlaysRole(s.entries, producing, q, app)
  {
    hide Parent, Placed, Match;
    if p != "" && p !in s.entries {
      var source :| Source(s.entries, p, source) && s' == Insert(s, p, source);
      PlacedFrame(s, p, Inherited(s, source));
    }
  }

  // Creating p changes no answer to any role query, on any engine.
  ghost predicate CreationInvisible(p: string) {
    forall s, s', producing, q, app | Created(s, p, s') ::
      PlaysRole(s'.entries, producing, q, app) <==> PlaysRole(s.entries, producing, q, app)
  }

  // That is so exactly for the patterns that match nothing but themselves. Any other is seen on the
  // engine that holds its escaped form alone, with a producer.
  lemma {:induction false} CreationInvisibleExactly(p: string)
    ensures CreationInvisible(p) <==> Lone(p)
    ensures CreationInvisible(p) <==> (forall t | t in Tokens(p) :: t.Literal?) || (exists t | t in Tokens(p) :: TakesNone(t))
  {
    hide Match, Created, PlaysRole, Escaped, Tokens, TakesNone;
    LoneTokens(p);
    if Lone(p) {
      forall s, s', producing, q, app | Created(s, p, s')
        ensures PlaysRole(s'.entries, producing, q, app) <==> PlaysRole(s.entries, producing, q, app)
      {
        LoneCreationInvisible(s, p, s', producing, q, app);
      }
    } else {
      var q :| q != "" && Match(p, q) && q != p;
      var s, s' := CreationSeen(p, q);
    }
  }

  lemma CreationSeen(p: string, q: string) returns (s: Store, s': Store)
    requires q != "" && Match(p, q) && q != p
    ensures Created(s, p, s')
    ensures PlaysRole(s'.entries, true, q, "x") && !PlaysRole(s.entries, true, q, "x")
  {
    hide Match, Parent, Placed, Escaped;
    var k := Escaped(p);
    s := Store(map[k := DEFAULT_ENTRY.(producers := ["x"])], false);
    EscapedMatchesOnly(p, p);
    EscapedMatchesOnly(p, q);
    EscapedMatchesOnly(p, k);
    assert p != "" by {
      assert Match("", q) ==> q == "" by {
        EmptyMatches(q);
      }
    }
    if p in s.entries {
      LoneEscaped(p, q);
    }
    CreationPossible(s, p);
    s' :| Created(s, p, s');
    CreationFrame(s, p, s');
    assert Matching(s.entries, p, k);
    assert "x" in s'.entries[p].producers;
  }

  lemma EmptyMatches(q: string)
    ensures Match("", q) <==> q == ""
  {
  }

  // A pattern that is its own escaped form matches itself alone.
  lemma LoneEscaped(p: string, q: string)
    requires p == Escaped(p) && Match(p, q)
    ensures q == p
  {
    EscapedMatchesOnly(p, q);
  }

  // In particular for glob-free paths.
  lemma LazyCreationInvisible(s: Store, p: string, s': Store, producing: bool, q: string, app: string)
    requires GlobFree(p) && Created(s, p, s')
    ensures PlaysRole(s'.entries, producing, q, app) <==> PlaysRole(s.entries, producing, q, app)
  {
    hide Match, Created, PlaysRole, GlobFree;
    forall r | Match(p, r)
      ensures r == p
    {
      GlobFreeMatchesOnlyItself(p, r);
    }
    LoneCreationInvisible(s, p, s', producing, q, app);
  }

  ghost predicate Asking(states: seq<Store>, queries: seq<Query>) {
    && |states| == |queries| + 1
    && forall i | 0 <= i < |queries| :: Asked(states[i], queries[i], states[i + 1])
  }

  // Over any sequence of getters and role queries on such paths, every role query on any path gets
  // the answer it would have got at the start.
  lemma {:induction false} QueriesInvisible(states: seq<Store>, queries: seq<Query>, i: nat,
                                            producing: bool, q: string, app: string)
    requires Asking(states, queries) && i < |states|
    requires forall query | query in queries :: Lone(query.p)
    ensures PlaysRole(states[i].entries, producing, q, app) <==> PlaysRole(states[0].entries, producing, q, app)
  {
    hide Created, Lone;
    if i > 0 {
      QueriesInvisible(states, queries, i - 1, producing, q, app);
      assert Asked(states[i - 1], queries[i - 1], states[i]);
      if states[i] != states[i - 1] {
        LoneCreationInvisible(states[i - 1], queries[i - 1].p, states[i], producing, q, app);
      }
    }
  }

  // A pattern that matches more: "*", created by a query beside the key "[*]" that matches it, makes
  // x a producer of b.
  lemma GlobCreationVisible(s: Store, s': Store)
    requires s == Store(map["[*]" := DEFAULT_ENTRY.(producers := ["x"])], false)
    requires Created(s, "*", s')
    ensures !PlaysRole(s.entries, true, "b", "x") && PlaysRole(s'.entries, true, "b", "x")
  {
    BracketedStar();
    assert Parent("*") == "";
    CreationFrame(s, "*", s');
    hide Match, Created, Parent, Placed;
    assert Matching(s.entries, "*", "[*]");
    assert s'.entries["*"].producers == ["x"];
  }

  lemma BracketedStar()
    ensures Match("[*]", "*") && !Match("[*]", "b") && Match("*", "b")
  {
    var p := "*]";
    assert p[1..] == "]" && BracketItems(p[1..], false) == Some(Bracket([], ""));
    assert BracketItems(p, true) == Some(Bracket([Range('*', '*')] + [], ""));
    assert [Range('*', '*')] + [] == [Range('*', '*')];
    assert "[*]"[1..] == "*]";
    assert NextToken("[*]") == (OneOf(false, [Range('*', '*')]), "");
    assert Match("", "");
    assert NextToken("*") == (AnyRun, "");
    assert Match("*", "");
    assert "b"[1..] == "";
  }
}
