// The multicast commit protocol. A node's listener and calls work on its list of committed paths;
// the network is a state machine over all nodes, whose messages may be lost, duplicated and
// reordered, and which delivers a multicast to every subscriber, the sender included.
module CommitProtocol {
  import opened Text
  import opened Entries
  import opened Framing

  function Inserted(paths: seq<string>, p: string): seq<string> {
    if p in paths then paths else paths + [p]
  }

  // The path a receiver reads from a message sent for p.
  function Carried(p: string): string {
    Clipped(CString(p))
  }

  lemma CarriedTwice(p: string)
    ensures Carried(Carried(p)) == Carried(p)
    ensures forall c :: CommitPath(Frame(c, p)) == Carried(p)
  {
    assert forall x | x in Carried(p) :: x in CString(p);
    BeforeWhole(Carried(p), NUL);
  }

  // What a message does to a list of committed paths, and whether it is answered.
  function ListAfter(paths: seq<string>, c: Command, p: string): seq<string> {
    if c.SET? then Inserted(paths, p) else paths
  }

  predicate Answers(paths: seq<string>, c: Command, p: string) {
    c.GET? && p in paths
  }

  // A listener takes everything but a SET for a query.
  function CommandOf(message: string): Command
    requires message != ""
  {
    if message[0] == '!' then SET else GET
  }

  // Failed stands for the exception that substr(2) throws on a shorter message.
  datatype Outcome = Quiet | Reply(message: string) | Failed

  class CommitNode {
    var committed: seq<string>

    constructor ()
      ensures committed == []
    {
      committed := [];
    }

    // One message handled by commit_listener, and the message it multicasts in reply.
    method Receive(message: string) returns (outcome: Outcome)
      modifies this
      ensures |message| < 2 ==> outcome == Failed && committed == old(committed)
      ensures |message| >= 2 ==>
        var c, path := CommandOf(message), CommitPath(message);
        && committed == ListAfter(old(committed), c, path)
        && outcome == if Answers(old(committed), c, path) then Reply(Frame(SET, path)) else Quiet
      ensures |message| >= 2 && message[0] == '!' ==>
        && outcome == Quiet
        && committed == if message[2..] in old(committed) then old(committed) else old(committed) + [message[2..]]
      ensures |message| >= 2 && message[0] != '!' ==>
        && committed == old(committed)
        && outcome == if message[2..] in committed then Reply(Frame(SET, message[2..])) else Quiet
    {
      if |message| < 2 {
        return Failed;
      }
      var path := message[2..];
      outcome := Quiet;
      if message[0] == '!' {
        if path !in committed {
          committed := committed + [path];
        }
      } else {
        if path in committed {
          outcome := Reply(Frame(SET, path));
        }
      }
    }

    // The second half of setCommitted, after the message is sent.
    method Record(path: string)
      modifies this
      ensures committed == Inserted(old(committed), path)
      ensures committed == if path in old(committed) then old(committed) else old(committed) + [path]
    {
      if path !in committed {
        committed := committed + [path];
      }
    }

    // The first half of isCommitted: the query it multicasts when the path is not listed.
    method Ask(path: string) returns (query: Option<string>)
      ensures query == if path in committed then None else Some(Frame(GET, path))
    {
      if path in committed {
        return None;
      }
      query := Some(Frame(GET, path));
    }
  }

  // ---- The network ----

  type Node = nat

  // sets and gets are the deliveries in flight, each with its destination and carried path;
  // announced records which node called setCommitted on which path.
  datatype Net = Net(
    subscribed: set<Node>, committed: map<Node, seq<string>>,
    sets: multiset<(Node, string)>, gets: multiset<(Node, string)>,
    announced: set<(Node, string)>)

  function Held(net: Net, n: Node): seq<string> {
    if n in net.committed then net.committed[n] else []
  }

  function Pairs(nodes: set<Node>, p: string): set<(Node, string)> {
    set n | n in nodes :: (n, p)
  }

  function ToAll(nodes: set<Node>, p: string): multiset<(Node, string)> {
    multiset(Pairs(nodes, p))
  }

  datatype Act =
    | Join(n: Node)
    | Publish(n: Node, p: string)    // setCommitted sends
    | Record(n: Node, p: string)    // and then inserts
    | Ask(n: Node, p: string)    // isCommitted queries
    | DeliverSet(n: Node, q: string)
    | DeliverGet(n: Node, q: string)
    | LoseSet(n: Node, q: string)
    | LoseGet(n: Node, q: string)
    | RepeatSet(n: Node, q: string)
    | RepeatGet(n: Node, q: string)

  function WithList(net: Net, n: Node, paths: seq<string>): Net {
    net.(committed := net.committed[n := paths])
  }

  predicate Enabled(net: Net, a: Act) {
    match a
    case Record(n, p) => (n, p) in net.announced
    case DeliverSet(n, q) => (n, q) in net.sets
    case LoseSet(n, q) => (n, q) in net.sets
    case RepeatSet(n, q) => (n, q) in net.sets
    case DeliverGet(n, q) => (n, q) in net.gets
    case LoseGet(n, q) => (n, q) in net.gets
    case RepeatGet(n, q) => (n, q) in net.gets
    case _ => true
  }

  function After(net: Net, a: Act): Net {
    match a
    case Join(n) => net.(subscribed := net.subscribed + {n})
    case Publish(n, p) => net.(announced := net.announced + {(n, p)}, sets := net.sets + ToAll(net.subscribed, Carried(p)))
    case Record(n, p) => WithList(net, n, Inserted(Held(net, n), p))
    case Ask(n, p) => if p in Held(net, n) then net else net.(gets := net.gets + ToAll(net.subscribed, Carried(p)))
    case DeliverSet(n, q) => WithList(net.(sets := net.sets - multiset{(n, q)}), n, ListAfter(Held(net, n), SET, q))
    case DeliverGet(n, q) =>
      var taken := net.(gets := net.gets - multiset{(n, q)});
      if Answers(Held(net, n), GET, q) then taken.(sets := net.sets + ToAll(net.subscribed, Carried(q))) else taken
    case LoseSet(n, q) => net.(sets := net.sets - multiset{(n, q)})
    case LoseGet(n, q) => net.(gets := net.gets - multiset{(n, q)})
    case RepeatSet(n, q) => net.(sets := net.sets + multiset{(n, q)})
    case RepeatGet(n, q) => net.(gets := net.gets + multiset{(n, q)})
  }

  const SILENT := Net({}, map[], multiset{}, multiset{}, {})

  ghost predicate IsRun(nets: seq<Net>, acts: seq<Act>) {
    && |nets| == |acts| + 1
    && forall i | 0 <= i < |acts| :: Enabled(nets[i], acts[i]) && nets[i + 1] == After(nets[i], acts[i])
  }

  // ---- Provenance: under loss, duplication and reordering ----

  ghost predicate Stems(net: Net, q: string) {
    exists n, p :: (n, p) in net.announced && q == Carried(p)
  }

  ghost predicate Provenance(net: Net) {
    && (forall n, q | (n, q) in net.sets :: Stems(net, q))
    && (forall n: Node, q | q in Held(net, n) :: Stems(net, q) || (n, q) in net.announced)
    && (forall n, q | (n, q) in net.sets :: Carried(q) == q)
    && (forall n, q | (n, q) in net.gets :: Carried(q) == q)
    && (forall n :: NoDuplicates(Held(net, n)))
  }

  lemma ToAllHas(nodes: set<Node>, p: string)
    ensures forall n, q :: (n, q) in ToAll(nodes, p) <==> n in nodes && q == p
    ensures |ToAll(nodes, p)| == |nodes|
  {
    PairCount(nodes, p);
    MultisetCount(Pairs(nodes, p));
  }

  lemma {:induction false} MultisetCount<T>(s: set<T>)
    ensures |multiset(s)| == |s|
  {
    if s != {} {
      var x :| x in s;
      MultisetCount(s - {x});
      assert multiset(s) == multiset(s - {x}) + multiset{x};
    }
  }

  lemma {:induction false} PairCount(nodes: set<Node>, p: string)
    ensures |Pairs(nodes, p)| == |nodes|
  {
    if nodes != {} {
      var n :| n in nodes;
      PairCount(nodes - {n}, p);
      assert (n, p) !in Pairs(nodes - {n}, p);
      assert Pairs(nodes, p) == Pairs(nodes - {n}, p) + {(n, p)};
    }
  }

  lemma InsertedKeeps(paths: seq<string>, p: string)
    ensures paths <= Inserted(paths, p)
    ensures NoDuplicates(paths) ==> NoDuplicates(Inserted(paths, p))
    ensures forall q :: q in Inserted(paths, p) <==> q in paths || q == p
  {
  }

  // What a step does to the lists.
  lemma StepLists(net: Net, a: Act, n: Node)
    ensures Held(After(net, a), n) ==
      if (a.Record? && a.n == n) then Inserted(Held(net, n), a.p)
      else if a.DeliverSet? && a.n == n then Inserted(Held(net, n), a.q)
      else Held(net, n)
  {
    hide Inserted, Carried, ToAll;
  }

  // And to the deliveries in flight: new ones carry a path just announced, queried or held.
  lemma StepFlights(net: Net, a: Act)
    requires Enabled(net, a)
    ensures forall n, q | (n, q) in After(net, a).sets && (n, q) !in net.sets ::
      (a.Publish? && q == Carried(a.p)) || (a.DeliverGet? && q == Carried(a.q) && a.q in Held(net, a.n))
    ensures forall n, q | (n, q) in After(net, a).gets && (n, q) !in net.gets :: a.Ask? && q == Carried(a.p)
    ensures After(net, a).announced == if a.Publish? then net.announced + {(a.n, a.p)} else net.announced
  {
    hide Inserted, ListAfter, Carried, ToAll, Held;
    match a
    case Publish(n, p) => ToAllHas(net.subscribed, Carried(p));
    case Ask(n, p) => ToAllHas(net.subscribed, Carried(p));
    case DeliverGet(n, q) => ToAllHas(net.subscribed, Carried(q));
    case _ =>
  }

  lemma StepProvenance(net: Net, a: Act)
    requires Provenance(net) && Enabled(net, a)
    ensures Provenance(After(net, a))
    ensures forall n :: Held(net, n) <= Held(After(net, a), n)
  {
    hide After, Held, Inserted, Carried, NoDuplicates;
    var net' := After(net, a);
    StepFlights(net, a);
    if a.Publish? || a.Ask? {
      CarriedTwice(a.p);
    } else if a.DeliverGet? {
      CarriedTwice(a.q);
    }
    if a.Publish? {
      assert (a.n, a.p) in net'.announced;
    }
    assert forall q | Stems(net, q) :: Stems(net', q);
    forall n: Node
      ensures NoDuplicates(Held(net', n)) && Held(net, n) <= Held(net', n)
      ensures forall q | q in Held(net', n) :: Stems(net', q) || (n, q) in net'.announced
    {
      StepLists(net, a, n);
      if a.Record? {
        InsertedKeeps(Held(net, n), a.p);
      } else if a.DeliverSet? {
        InsertedKeeps(Held(net, n), a.q);
      }
    }
  }

  // In every reachable state each committed path and each SET in flight stems from an earlier
  // setCommitted, and lists hold no path twice.
  lemma {:induction false} EveryCommitStems(nets: seq<Net>, acts: seq<Act>, i: nat)
    requires IsRun(nets, acts) && nets[0] == SILENT && i < |nets|
    ensures Provenance(nets[i])
  {
    hide After, Enabled;
    if i > 0 {
      EveryCommitStems(nets, acts, i - 1);
      StepProvenance(nets[i - 1], acts[i - 1]);
    }
  }

  // Lists only grow, at the end.
  lemma {:induction false} ListsGrow(nets: seq<Net>, acts: seq<Act>, i: nat, j: nat, n: Node)
    requires IsRun(nets, acts) && i <= j < |nets|
    ensures Held(nets[i], n) <= Held(nets[j], n)
    decreases j
  {
    hide After, Enabled, Held, Inserted;
    if i < j {
      ListsGrow(nets, acts, i, j - 1, n);
      var a := acts[j - 1];
      StepLists(nets[j - 1], a, n);
      if a.Record? {
        InsertedKeeps(Held(nets[j - 1], n), a.p);
      } else if a.DeliverSet? {
        InsertedKeeps(Held(nets[j - 1], n), a.q);
      }
    }
  }

  // ---- Delivery without loss ----

  predicate Loses(a: Act) {
    a.LoseSet? || a.LoseGet?
  }

  // r holds q, or will: a SET is on its way to it, or a GET to a node that holds q.
  ghost predicate Coming(net: Net, r: Node, q: string) {
    && r in net.subscribed && Carried(q) == q
    && (q in Held(net, r) || (r, q) in net.sets || exists h: Node :: q in Held(net, h) && (h, q) in net.gets)
  }

  lemma StepComing(net: Net, a: Act, r: Node, q: string)
    requires Coming(net, r, q) && Enabled(net, a) && !Loses(a)
    ensures Coming(After(net, a), r, q)
  {
    hide Inserted, Carried, ToAll, After, Held;
    var net' := After(net, a);
    if q in Held(net, r) {
      HeldStays(net, a, r, q);
    } else if (r, q) in net.sets {
      SetOnItsWay(net, a, r, q);
    } else {
      var h: Node :| q in Held(net, h) && (h, q) in net.gets;
      HeldStays(net, a, h, q);
      GetOnItsWay(net, a, h, r, q);
    }
  }

  lemma HeldStays(net: Net, a: Act, n: Node, q: string)
    requires q in Held(net, n)
    ensures q in Held(After(net, a), n)
    ensures net.subscribed <= After(net, a).subscribed
  {
    StepLists(net, a, n);
  }

  lemma SetOnItsWay(net: Net, a: Act, r: Node, q: string)
    requires (r, q) in net.sets && Enabled(net, a) && !Loses(a)
    ensures (r, q) in After(net, a).sets || q in Held(After(net, a), r)
    ensures net.subscribed <= After(net, a).subscribed
  {
    hide Carried, ToAll;
    if a == DeliverSet(r, q) {
      InsertedKeeps(Held(net, r), q);
      hide Inserted;
    } else {
      hide Inserted, Held;
    }
  }

  lemma GetOnItsWay(net: Net, a: Act, h: Node, r: Node, q: string)
    requires (h, q) in net.gets && q in Held(net, h) && r in net.subscribed && Carried(q) == q
    requires Enabled(net, a) && !Loses(a)
    ensures (h, q) in After(net, a).gets || (r, q) in After(net, a).sets
    ensures net.subscribed <= After(net, a).subscribed
  {
    hide Inserted, Carried;
    ToAllHas(net.subscribed, q);
    hide ToAll;
  }

  lemma {:induction false} StaysComing(nets: seq<Net>, acts: seq<Act>, i: nat, j: nat, r: Node, q: string)
    requires IsRun(nets, acts) && i <= j < |nets|
    requires forall k | i <= k < j :: !Loses(acts[k])
    requires Coming(nets[i], r, q)
    ensures Coming(nets[j], r, q)
    decreases j
  {
    hide After, Enabled, Coming;
    if i < j {
      StaysComing(nets, acts, i, j - 1, r, q);
      StepComing(nets[j - 1], acts[j - 1], r, q);
    }
  }

  // Without loss from some query on, once nothing is in flight the asking node holds the path if
  // any subscriber held it when it asked.
  lemma QueryAnswered(nets: seq<Net>, acts: seq<Act>, i: nat, j: nat, r: Node, p: string, h: Node)
    requires IsRun(nets, acts) && i < j < |nets|
    requires acts[i] == Ask(r, p) && r in nets[i].subscribed
    requires h in nets[i].subscribed && Carried(p) in Held(nets[i], h)
    requires p !in Held(nets[i], r)
    requires forall k | i <= k < j :: !Loses(acts[k])
    requires nets[j].sets == multiset{} && nets[j].gets == multiset{}
    ensures Carried(p) in Held(nets[j], r)
  {
    var q := Carried(p);
    CarriedTwice(p);
    ToAllHas(nets[i].subscribed, q);
    assert (h, q) in nets[i + 1].gets && q in Held(nets[i + 1], h);
    StaysComing(nets, acts, i + 1, j, r, q);
  }

  // The same for every node subscribed when a SET was sent.
  lemma AnnouncementReceived(nets: seq<Net>, acts: seq<Act>, i: nat, j: nat, n: Node, r: Node, p: string)
    requires IsRun(nets, acts) && i < j < |nets|
    requires acts[i] == Publish(n, p) && r in nets[i].subscribed
    requires forall k | i <= k < j :: !Loses(acts[k])
    requires nets[j].sets == multiset{} && nets[j].gets == multiset{}
    ensures Carried(p) in Held(nets[j], r)
  {
    CarriedTwice(p);
    ToAllHas(nets[i].subscribed, Carried(p));
    StaysComing(nets, acts, i + 1, j, r, Carried(p));
  }

  // ---- No broadcast storm ----

  function Weight(net: Net): nat {
    (|net.subscribed| + 1) * |net.gets| + |net.sets|
  }

  predicate Settles(a: Act) {
    a.DeliverSet? || a.DeliverGet? || a.LoseSet? || a.LoseGet?
  }

  lemma StepSettles(net: Net, a: Act)
    requires Enabled(net, a) && Settles(a)
    ensures After(net, a).subscribed == net.subscribed && Weight(After(net, a)) < Weight(net)
  {
    hide Weight, Carried, ToAll, Inserted, Held;
    var net' := After(net, a);
    if a.DeliverGet? || a.LoseGet? {
      assert |net'.gets| == |net.gets| - 1;
      if a.DeliverGet? {
        ToAllHas(net.subscribed, Carried(a.q));
      }
      LighterGets(net, net');
    } else {
      LighterSets(net, net');
    }
  }

  lemma LighterGets(net: Net, net': Net)
    requires net'.subscribed == net.subscribed && |net'.gets| == |net.gets| - 1
    requires |net'.sets| <= |net.sets| + |net.subscribed|
    ensures Weight(net') < Weight(net)
  {
    var n := |net.subscribed| + 1;
    assert n * |net.gets| == n * |net'.gets| + n;
  }

  lemma LighterSets(net: Net, net': Net)
    requires net'.subscribed == net.subscribed && net'.gets == net.gets && |net'.sets| == |net.sets| - 1
    ensures Weight(net') < Weight(net)
  {
  }

  // Each delivery or loss lowers the weight, so after the last call the network falls silent within
  // that many steps.
  lemma {:induction false} FallsSilent(nets: seq<Net>, acts: seq<Act>)
    requires IsRun(nets, acts) && forall i | 0 <= i < |acts| :: Settles(acts[i])
    ensures |acts| + Weight(nets[|acts|]) <= Weight(nets[0])
  {
    hide After, Enabled, Weight;
    if acts != [] {
      var n := |acts| - 1;
      var init, before := acts[..n], nets[..n + 1];
      assert IsRun(before, init) by {
        forall i | 0 <= i < n
          ensures Enabled(before[i], init[i]) && before[i + 1] == After(before[i], init[i])
        {
          assert Enabled(nets[i], acts[i]);
        }
      }
      assert forall i | 0 <= i < n :: Settles(acts[i]) ==> Settles(init[i]);
      FallsSilent(before, init);
      StepSettles(nets[n], acts[n]);
    }
  }
}
