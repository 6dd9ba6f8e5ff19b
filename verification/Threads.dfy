// The engine under concurrent calls. Each step is one lock section of one call, so a run is any
// interleaving of any number of calls.
module Threads {
  import opened Text
  import opened Entries
  import opened Store

  datatype Call =
    | NewFileCall(p: string)
    | AddAppCall(producing: bool, p: string, app: string)
    | SetterCall(p: string, c: Change)
    | GetterCall(p: string)
    | RemoveCall(p: string)
    | AllInMemoryCall

  // Looking and Creating are the two lock sections of the "look up, create when missing, retry"
  // pattern; Raising, Snapshot and Marking those of setAllStoreInMemory.
  datatype Phase = Looking | Creating | Raising | Snapshot | Marking(todo: set<string>) | Finished

  // failed counts the look-ups that found no entry; the drop counts are those of the call's path
  // when it started and when it finished.
  datatype Thread = Thread(call: Call, phase: Phase, failed: nat, dropsAtStart: nat, dropsAtFinish: nat)

  // drops counts how many times each path was erased.
  datatype Config = Config(store: Store, threads: map<nat, Thread>, drops: map<string, nat>)

  function Drops(c: Config, p: string): nat {
    if p in c.drops then c.drops[p] else 0
  }

  function PathOf(call: Call): string {
    if call.AllInMemoryCall? then "" else call.p
  }

  function FirstPhase(call: Call): Phase {
    match call
    case AllInMemoryCall => Raising
    case RemoveCall(_) => Looking
    case NewFileCall(_) => Creating
    case _ => if call.p == "" then Finished else Looking
  }

  // Adding an application, setCommitRule and the getters create in a section of their own; the
  // other setters create in the section of the failed look-up.
  predicate CreatesApart(call: Call) {
    call.AddAppCall? || call.GetterCall? || (call.SetterCall? && call.c.SetCommitRule?)
  }

  function Found(s: Store, call: Call): Store {
    match call
    case AddAppCall(producing, p, app) => Edited(s, p, if producing then AddProducer(Strip(app)) else AddConsumer(Strip(app)))
    case SetterCall(p, c) => Edited(s, p, c)
    case _ => s
  }

  function Moved(c: Config, t: nat, phase: Phase, store: Store): Config
    requires t in c.threads
  {
    c.(store := store, threads := c.threads[t := c.threads[t].(phase := phase)])
  }

  function Failing(c: Config, t: nat, phase: Phase, store: Store): Config
    requires t in c.threads
  {
    c.(store := store, threads := c.threads[t := c.threads[t].(phase := phase, failed := c.threads[t].failed + 1)])
  }

  function Finishing(c: Config, t: nat, store: Store): Config
    requires t in c.threads
  {
    c.(store := store,
       threads := c.threads[t := c.threads[t].(phase := Finished, dropsAtFinish := Drops(c, PathOf(c.threads[t].call)))])
  }

  function Erased(c: Config, p: string): Config {
    if p in c.store.entries then c.(store := Dropped(c.store, p), drops := c.drops[p := Drops(c, p) + 1]) else c
  }

  ghost predicate Starts(c: Config, t: nat, call: Call, c': Config) {
    && t !in c.threads
    && c' == c.(threads := c.threads[t := Thread(call, FirstPhase(call), 0, Drops(c, PathOf(call)), Drops(c, PathOf(call)))])
  }

  ghost predicate LookStep(c: Config, t: nat, c': Config)
    requires t in c.threads && !c.threads[t].call.AllInMemoryCall?
  {
    var call := c.threads[t].call;
    if call.RemoveCall? then
      c' == Finishing(Erased(c, call.p), t, Erased(c, call.p).store)
    else if call.p in c.store.entries then
      c' == Finishing(c, t, Found(c.store, call))
    else if CreatesApart(call) then
      c' == Failing(c, t, Creating, c.store)
    else
      exists s :: Created(c.store, call.p, s) && c' == Failing(c, t, Looking, s)
  }

  ghost predicate CreateStep(c: Config, t: nat, c': Config)
    requires t in c.threads && !c.threads[t].call.AllInMemoryCall?
  {
    var call := c.threads[t].call;
    exists s :: Created(c.store, call.p, s)
      && c' == if call.NewFileCall? then Finishing(c, t, s) else Moved(c, t, Looking, s)
  }

  // setStoreFileInMemory on one path of the snapshot.
  ghost predicate MarkStep(c: Config, t: nat, p: string, c': Config)
    requires t in c.threads && c.threads[t].phase.Marking?
  {
    var rest := Marking(c.threads[t].phase.todo - {p});
    && p in c.threads[t].phase.todo
    && if p == "" then c' == Moved(c, t, rest, c.store)
       else if p in c.store.entries then c' == Moved(c, t, rest, Edited(c.store, p, SetInMemory(true)))
       else exists s :: Created(c.store, p, s) && c' == Moved(c, t, c.threads[t].phase, s)
  }

  ghost predicate ThreadStep(c: Config, t: nat, c': Config)
    requires t in c.threads
  {
    var thread := c.threads[t];
    if thread.call.AllInMemoryCall? then
      match thread.phase
      case Raising => c' == Moved(c, t, Snapshot, c.store.(allInMemory := true))
      case Snapshot => c' == Moved(c, t, Marking(c.store.entries.Keys), c.store)
      case Marking(todo) =>
        if todo == {} then c' == Finishing(c, t, c.store) else exists p :: MarkStep(c, t, p, c')
      case _ => false
    else
      match thread.phase
      case Looking => LookStep(c, t, c')
      case Creating => CreateStep(c, t, c')
      case _ => false
  }

  ghost predicate Next(c: Config, c': Config) {
    || (exists t, call :: Starts(c, t, call, c'))
    || (exists t :: t in c.threads && ThreadStep(c, t, c'))
  }

  ghost predicate IsRun(run: seq<Config>) {
    && run != []
    && run[0].threads == map[]
    && forall i | 0 <= i < |run| - 1 :: Next(run[i], run[i + 1])
  }

  // ---- What every section keeps ----

  ghost predicate AppsDistinct(s: Store) {
    forall p | p in s.entries :: NoDuplicates(s.entries[p].producers) && NoDuplicates(s.entries[p].consumers)
  }

  ghost predicate KeepsDistinct(s: Store, s': Store) {
    AppsDistinct(s) ==> AppsDistinct(s')
  }

  predicate Lists(s: Store, producing: bool, p: string, app: string) {
    p in s.entries && app in (if producing then s.entries[p].producers else s.entries[p].consumers)
  }

  // The section erases nothing and takes no application off a list.
  ghost predicate Grows(s: Store, s': Store) {
    && s.entries.Keys <= s'.entries.Keys
    && KeepsDistinct(s, s')
    && forall producing, p, app :: Lists(s, producing, p, app) ==> Lists(s', producing, p, app)
  }

  ghost predicate KeepsMemory(s: Store, s': Store) {
    && (s.allInMemory ==> s'.allInMemory)
    && forall p | p in s'.entries && !s'.entries[p].inMemory ::
         if p in s.entries then !s.entries[p].inMemory else !s.allInMemory
  }

  lemma CreatedKeeps(s: Store, p: string, s': Store)
    requires Created(s, p, s')
    ensures Grows(s, s') && KeepsMemory(s, s')
    ensures p != "" ==> p in s'.entries
  {
    if p != "" && p !in s.entries {
      var source :| Source(s.entries, p, source) && s' == Insert(s, p, source);
      InsertKeeps(s, p, Inherited(s, source));
    }
  }

  lemma InsertKeeps(s: Store, p: string, e: Entry)
    requires p !in s.entries
    requires AppsDistinct(s) ==> NoDuplicates(e.producers) && NoDuplicates(e.consumers)
    requires !e.inMemory ==> !s.allInMemory
    ensures Grows(s, Placed(s, p, e)) && KeepsMemory(s, Placed(s, p, e))
    ensures p in Placed(s, p, e).entries
  {
    PlacedFrame(s, p, e);
    hide Placed;
  }

  lemma EditedKeeps(s: Store, p: string, c: Change)
    ensures Grows(s, Edited(s, p, c))
    ensures c != SetInMemory(false) ==> KeepsMemory(s, Edited(s, p, c))
  {
    if p in s.entries {
      ApplyKeeps(c, s.entries[p]);
    }
    hide Apply;
  }

  lemma ApplyKeeps(c: Change, e: Entry)
    ensures var e' := Apply(c, e);
      && (NoDuplicates(e.producers) ==> NoDuplicates(e'.producers))
      && (NoDuplicates(e.consumers) ==> NoDuplicates(e'.consumers))
      && (forall app | app in e.producers :: app in e'.producers)
      && (forall app | app in e.consumers :: app in e'.consumers)
      && (c != SetInMemory(false) && !e'.inMemory ==> !e.inMemory)
  {
    hide Appended, NoDuplicates;
    if c.AddProducer? {
      AppendedKeeps(e.producers, c.app);
    } else if c.AddConsumer? {
      AppendedKeeps(e.consumers, c.app);
    }
  }

  lemma AppendedKeeps(xs: seq<string>, x: string)
    ensures NoDuplicates(xs) ==> NoDuplicates(Appended(xs, x))
    ensures forall y | y in xs :: y in Appended(xs, x)
  {
  }

  lemma FoundKeeps(s: Store, call: Call)
    ensures Grows(s, Found(s, call))
    ensures !StoresOnDisk(call) ==> KeepsMemory(s, Found(s, call))
    ensures call.AddAppCall? && call.p in s.entries ==> Lists(Found(s, call), call.producing, call.p, Strip(call.app))
  {
    hide Edited;
    match call
    case AddAppCall(producing, p, app) =>
      EditedKeeps(s, p, if producing then AddProducer(Strip(app)) else AddConsumer(Strip(app)));
      if p in s.entries {
        AddedIsListed(s, producing, p, Strip(app));
      }
    case SetterCall(p, c) => EditedKeeps(s, p, c);
    case _ =>
  }

  lemma AddedIsListed(s: Store, producing: bool, p: string, app: string)
    requires p in s.entries
    ensures Lists(Edited(s, p, if producing then AddProducer(app) else AddConsumer(app)), producing, p, app)
  {
  }

  predicate StoresOnDisk(call: Call) {
    call.SetterCall? && call.c == SetInMemory(false)
  }

  // ---- The invariants ----

  predicate PhaseFits(thread: Thread) {
    match thread.phase
    case Looking => !thread.call.AllInMemoryCall? && (thread.call.RemoveCall? || (thread.call.p != "" && !thread.call.NewFileCall?))
    case Creating => !thread.call.AllInMemoryCall? && (thread.call.NewFileCall? || (thread.call.p != "" && !thread.call.RemoveCall?))
    case _ => true
  }

  // Look-ups fail once at most, and once more for each erasure of the path during the call.
  ghost predicate LookupsBounded(c: Config, thread: Thread) {
    var p := PathOf(thread.call);
    var dropped := Drops(c, p) - thread.dropsAtStart;
    && 0 <= dropped
    && PhaseFits(thread)
    && (thread.phase == Finished ==> thread.dropsAtStart <= thread.dropsAtFinish <= Drops(c, p))
    && thread.failed <= (if thread.phase == Finished then 1 + thread.dropsAtFinish - thread.dropsAtStart
                         else if thread.phase == Looking && p !in c.store.entries then dropped
                         else 1 + dropped)
  }

  // The application of a finished call is listed unless its path was erased since.
  ghost predicate StaysListed(c: Config, thread: Thread) {
    var call := thread.call;
    call.AddAppCall? && call.p != "" && thread.phase == Finished && Drops(c, call.p) == thread.dropsAtFinish ==>
      Lists(c.store, call.producing, call.p, Strip(call.app))
  }

  // Once the flag is raised, an entry outside memory is one of the snapshot still to be marked.
  ghost predicate MemoryMarked(c: Config, thread: Thread) {
    thread.call.AllInMemoryCall? && thread.phase != Raising ==>
      && c.store.allInMemory
      && (thread.phase.Marking? || thread.phase == Finished ==>
            forall p | p in c.store.entries && p != "" && !c.store.entries[p].inMemory ::
              thread.phase.Marking? && p in thread.phase.todo)
  }

  ghost predicate Invariant(c: Config) {
    forall t | t in c.threads :: LookupsBounded(c, c.threads[t]) && StaysListed(c, c.threads[t])
  }

  // No call that stores a path on the file system is under way.
  predicate DiskIdle(c: Config) {
    forall t | t in c.threads && StoresOnDisk(c.threads[t].call) :: c.threads[t].phase == Finished
  }

  lemma OtherThread(c: Config, c': Config, thread: Thread)
    requires LookupsBounded(c, thread) && StaysListed(c, thread)
    requires Grows(c.store, c'.store) && c'.drops == c.drops
    ensures LookupsBounded(c', thread) && StaysListed(c', thread)
  {
    hide Strip;
  }

  lemma ErasedKeeps(c: Config, p: string)
    requires Invariant(c)
    ensures Invariant(Erased(c, p))
    ensures KeepsMemory(c.store, Erased(c, p).store) && KeepsDistinct(c.store, Erased(c, p).store)
  {
    var c' := Erased(c, p);
    forall t | t in c'.threads
      ensures LookupsBounded(c', c.threads[t]) && StaysListed(c', c.threads[t])
    {
      assert LookupsBounded(c, c.threads[t]) && StaysListed(c, c.threads[t]);
      assert Drops(c', p) >= Drops(c, p);
    }
  }

  // A step that replaces thread t, grows the store and erases nothing keeps the invariant when it
  // holds of the new thread.
  lemma ThreadMoves(c: Config, t: nat, c': Config)
    requires Invariant(c) && t in c.threads
    requires t in c'.threads && c' == c.(store := c'.store, threads := c.threads[t := c'.threads[t]])
    requires Grows(c.store, c'.store)
    requires LookupsBounded(c', c'.threads[t]) && StaysListed(c', c'.threads[t])
    ensures Invariant(c')
  {
    hide LookupsBounded, StaysListed;
    forall u | u in c'.threads
      ensures LookupsBounded(c', c'.threads[u]) && StaysListed(c', c'.threads[u])
    {
      if u != t {
        OtherThread(c, c', c.threads[u]);
      }
    }
  }

  lemma LookStepKeeps(c: Config, t: nat, c': Config)
    requires Invariant(c) && t in c.threads && !c.threads[t].call.AllInMemoryCall?
    requires c.threads[t].phase == Looking && LookStep(c, t, c')
    ensures Invariant(c') && KeepsDistinct(c.store, c'.store)
    ensures !StoresOnDisk(c.threads[t].call) ==> KeepsMemory(c.store, c'.store)
  {
    hide Created, Edited, Strip, Erased, Found, Grows, KeepsMemory, Lists;
    var call := c.threads[t].call;
    assert LookupsBounded(c, c.threads[t]);
    if call.RemoveCall? {
      RemoveKeeps(c, t, c');
    } else if call.p in c.store.entries {
      FoundKeeps(c.store, call);
      GrowsDistinct(c.store, c'.store);
      ThreadMoves(c, t, c');
    } else if CreatesApart(call) {
      NothingChanges(c.store);
      ThreadMoves(c, t, c');
    } else {
      var s :| Created(c.store, call.p, s) && c' == Failing(c, t, Looking, s);
      CreatedKeeps(c.store, call.p, s);
      GrowsDistinct(c.store, s);
      ThreadMoves(c, t, c');
    }
  }

  lemma GrowsDistinct(s: Store, s': Store)
    requires Grows(s, s')
    ensures KeepsDistinct(s, s')
  {
  }

  lemma NothingChanges(s: Store)
    ensures Grows(s, s) && KeepsMemory(s, s)
  {
  }

  lemma RemoveKeeps(c: Config, t: nat, c': Config)
    requires Invariant(c) && t in c.threads && c.threads[t].call.RemoveCall?
    requires c.threads[t].phase == Looking
    requires c' == Finishing(Erased(c, c.threads[t].call.p), t, Erased(c, c.threads[t].call.p).store)
    ensures Invariant(c') && KeepsMemory(c.store, c'.store) && KeepsDistinct(c.store, c'.store)
  {
    hide Strip, KeepsMemory, KeepsDistinct, AppsDistinct;
    var p := c.threads[t].call.p;
    ErasedKeeps(c, p);
    NothingChanges(c'.store);
    assert LookupsBounded(Erased(c, p), c.threads[t]);
    ThreadMoves(Erased(c, p), t, c');
  }

  lemma CreateStepKeeps(c: Config, t: nat, c': Config)
    requires Invariant(c) && t in c.threads && !c.threads[t].call.AllInMemoryCall?
    requires c.threads[t].phase == Creating && CreateStep(c, t, c')
    ensures Invariant(c') && KeepsMemory(c.store, c'.store) && KeepsDistinct(c.store, c'.store)
  {
    hide Created, Strip;
    var call := c.threads[t].call;
    assert LookupsBounded(c, c.threads[t]) && StaysListed(c, c.threads[t]);
    var s :| Created(c.store, call.p, s)
      && c' == if call.NewFileCall? then Finishing(c, t, s) else Moved(c, t, Looking, s);
    CreatedKeeps(c.store, call.p, s);
    ThreadMoves(c, t, c');
  }

  lemma MarkStepKeeps(c: Config, t: nat, p: string, c': Config)
    requires Invariant(c) && t in c.threads && c.threads[t].call.AllInMemoryCall?
    requires c.threads[t].phase.Marking? && MarkStep(c, t, p, c')
    ensures Invariant(c') && KeepsMemory(c.store, c'.store) && KeepsDistinct(c.store, c'.store)
  {
    hide Created, Edited, Strip;
    assert LookupsBounded(c, c.threads[t]);
    if p != "" && p in c.store.entries {
      EditedKeeps(c.store, p, SetInMemory(true));
    } else if p != "" {
      var s :| Created(c.store, p, s) && c' == Moved(c, t, c.threads[t].phase, s);
      CreatedKeeps(c.store, p, s);
    }
    ThreadMoves(c, t, c');
  }

  lemma NextKeeps(c: Config, c': Config)
    requires Invariant(c) && Next(c, c')
    ensures Invariant(c') && KeepsDistinct(c.store, c'.store)
    ensures DiskIdle(c) ==> KeepsMemory(c.store, c'.store)
  {
    hide LookStep, CreateStep, MarkStep, KeepsMemory;
    if t, call :| Starts(c, t, call, c') {
      StartKeeps(c, t, call, c');
    } else {
      var t :| t in c.threads && ThreadStep(c, t, c');
      var thread := c.threads[t];
      if !thread.call.AllInMemoryCall? {
        if thread.phase == Looking {
          LookStepKeeps(c, t, c');
        } else {
          CreateStepKeeps(c, t, c');
        }
      } else if thread.phase.Marking? && thread.phase.todo != {} {
        var p :| MarkStep(c, t, p, c');
        MarkStepKeeps(c, t, p, c');
      } else {
        PhaseStepKeeps(c, t, c');
      }
    }
  }

  lemma StartKeeps(c: Config, t: nat, call: Call, c': Config)
    requires Invariant(c) && Starts(c, t, call, c')
    ensures Invariant(c') && KeepsMemory(c.store, c'.store) && KeepsDistinct(c.store, c'.store)
  {
    hide Strip;
    forall u | u in c'.threads
      ensures LookupsBounded(c', c'.threads[u]) && StaysListed(c', c'.threads[u])
    {
      if u != t {
        OtherThread(c, c', c.threads[u]);
      }
    }
  }

  // The steps of setAllStoreInMemory other than marking a path.
  lemma PhaseStepKeeps(c: Config, t: nat, c': Config)
    requires Invariant(c) && t in c.threads && ThreadStep(c, t, c')
    requires c.threads[t].call.AllInMemoryCall?
    requires c.threads[t].phase.Marking? ==> c.threads[t].phase.todo == {}
    ensures Invariant(c') && KeepsMemory(c.store, c'.store) && KeepsDistinct(c.store, c'.store)
  {
    hide LookStep, CreateStep, MarkStep, Strip;
    assert LookupsBounded(c, c.threads[t]);
    ThreadMoves(c, t, c');
  }

  // Once u has raised the flag and while no call stores on the file system, every step keeps what is
  // marked for u.
  lemma NextMarks(c: Config, c': Config, u: nat)
    requires Invariant(c) && Next(c, c') && u in c.threads && c.threads[u].call.AllInMemoryCall?
    requires MemoryMarked(c, c.threads[u]) && (c.threads[u].phase != Raising ==> DiskIdle(c))
    ensures u in c'.threads && c'.threads[u].call.AllInMemoryCall? && MemoryMarked(c', c'.threads[u])
    ensures c.threads[u].phase == Finished ==> c'.threads[u].phase == Finished
  {
    NextKeeps(c, c');
    hide ThreadStep, KeepsMemory, MemoryMarked, Invariant;
    if t, call :| Starts(c, t, call, c') {
      UnmovedMarks(c, c', c.threads[u]);
    } else {
      var t :| t in c.threads && ThreadStep(c, t, c');
      OtherUnmoved(c, t, c', u);
      if t != u {
        UnmovedMarks(c, c', c.threads[u]);
      } else {
        MarkedStep(c, t, c');
      }
    }
  }

  lemma UnmovedMarks(c: Config, c': Config, thread: Thread)
    requires MemoryMarked(c, thread)
    requires thread.phase != Raising ==> KeepsMemory(c.store, c'.store)
    ensures MemoryMarked(c', thread)
  {
    if thread.phase != Raising {
      SettledMarks(c, c', thread);
    }
  }

  lemma SettledMarks(c: Config, c': Config, thread: Thread)
    requires MemoryMarked(c, thread) && KeepsMemory(c.store, c'.store)
    ensures MemoryMarked(c', thread)
  {
  }

  // A thread's step leaves every other thread alone and never changes a call.
  lemma OtherUnmoved(c: Config, t: nat, c': Config, u: nat)
    requires t in c.threads && ThreadStep(c, t, c') && u in c.threads
    ensures u in c'.threads
    ensures c'.threads[u].call == c.threads[u].call
    ensures u != t ==> c'.threads[u] == c.threads[u]
  {
    hide Created, Edited, Dropped, Found;
  }

  lemma MarkedStep(c: Config, t: nat, c': Config)
    requires t in c.threads && c.threads[t].call.AllInMemoryCall? && ThreadStep(c, t, c')
    requires MemoryMarked(c, c.threads[t])
    requires c.threads[t].phase != Raising ==> KeepsMemory(c.store, c'.store)
    ensures t in c'.threads && MemoryMarked(c', c'.threads[t])
    ensures c.threads[t].phase != Finished
  {
    hide Created, LookStep, CreateStep;
    var thread := c.threads[t];
    if thread.phase.Marking? && thread.phase.todo != {} {
      var p :| MarkStep(c, t, p, c');
    }
  }

  // ---- Whole runs ----

  lemma {:induction false} RunKeeps(run: seq<Config>, i: nat)
    requires IsRun(run) && i < |run|
    ensures Invariant(run[i])
    ensures KeepsDistinct(run[0].store, run[i].store)
  {
    hide Next, AppsDistinct, KeepsMemory, LookupsBounded, StaysListed;
    if i > 0 {
      RunKeeps(run, i - 1);
      assert Next(run[i - 1], run[i]);
      NextKeeps(run[i - 1], run[i]);
    }
  }

  // In every interleaving: lists stay free of repetitions; the application of a finished call is
  // listed unless its path was erased since; and the look-ups a call has failed are at most one
  // plus the erasures of its path during the call.
  lemma ConcurrentCallsSafe(run: seq<Config>, i: nat, t: nat)
    requires IsRun(run) && i < |run| && t in run[i].threads
    ensures AppsDistinct(run[0].store) ==> AppsDistinct(run[i].store)
    ensures
      var thread := run[i].threads[t];
      var call := thread.call;
      && (call.AddAppCall? && call.p != "" && thread.phase == Finished && Drops(run[i], call.p) == thread.dropsAtFinish ==>
            Lists(run[i].store, call.producing, call.p, Strip(call.app)))
      && thread.failed <= 1 + (if thread.phase == Finished then thread.dropsAtFinish else Drops(run[i], PathOf(call))) - thread.dropsAtStart
  {
    RunKeeps(run, i);
    assert LookupsBounded(run[i], run[i].threads[t]) && StaysListed(run[i], run[i].threads[t]);
  }

  ghost predicate AllInMemory(s: Store) {
    forall p | p in s.entries && p != "" :: s.entries[p].inMemory
  }

  // Whenever t has raised the flag, no call that stores on the file system is under way.
  ghost predicate DiskIdleOnceRaised(run: seq<Config>, t: nat) {
    forall k | 0 <= k < |run| && t in run[k].threads && run[k].threads[t].phase != Raising :: DiskIdle(run[k])
  }

  lemma {:induction false} MarkedAlong(run: seq<Config>, i: nat, t: nat)
    requires IsRun(run) && i < |run| && DiskIdleOnceRaised(run, t)
    requires t in run[i].threads && run[i].threads[t].call.AllInMemoryCall?
    ensures MemoryMarked(run[i], run[i].threads[t])
  {
    hide ThreadStep, DiskIdle, Invariant;
    if i > 0 {
      assert Next(run[i - 1], run[i]);
      var c, c' := run[i - 1], run[i];
      if t in c.threads {
        CallStays(c, c', t);
        MarkedAlong(run, i - 1, t);
        RunKeeps(run, i - 1);
        NextMarks(c, c', t);
      } else {
        NewThread(c, c', t);
      }
    }
  }

  lemma CallStays(c: Config, c': Config, t: nat)
    requires Next(c, c') && t in c.threads
    ensures t in c'.threads && c'.threads[t].call == c.threads[t].call
  {
    hide ThreadStep;
    if u, call :| Starts(c, u, call, c') {
    } else {
      var u :| u in c.threads && ThreadStep(c, u, c');
      OtherUnmoved(c, u, c', t);
    }
  }

  lemma NewThread(c: Config, c': Config, t: nat)
    requires Next(c, c') && t !in c.threads && t in c'.threads
    ensures c'.threads[t].phase == FirstPhase(c'.threads[t].call)
  {
    hide Created, Edited, Dropped, Found;
  }

  // From the end of setAllStoreInMemory on every entry is stored in memory, whatever else runs, as
  // long as no call that stores a path on the file system is under way once the flag is raised.
  lemma {:induction false} AllStaysInMemory(run: seq<Config>, i: nat, j: nat, t: nat)
    requires IsRun(run) && i <= j < |run| && DiskIdleOnceRaised(run, t)
    requires t in run[i].threads && run[i].threads[t].call.AllInMemoryCall? && run[i].threads[t].phase == Finished
    ensures t in run[j].threads && run[j].threads[t].call.AllInMemoryCall? && run[j].threads[t].phase == Finished
    ensures AllInMemory(run[j].store) && run[j].store.allInMemory
    decreases j
  {
    hide Next, LookupsBounded, StaysListed, Invariant, DiskIdle;
    if i < j {
      AllStaysInMemory(run, i, j - 1, t);
      assert Next(run[j - 1], run[j]);
      RunKeeps(run, j - 1);
      MarkedAlong(run, j - 1, t);
      NextMarks(run[j - 1], run[j], t);
    } else {
      MarkedAlong(run, j, t);
    }
  }
}
