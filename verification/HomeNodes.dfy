// The multicast home-node protocol: which host each node takes for the home of a path. Messages are
// text, framed and tokenised as in Framing, and may be lost, duplicated and reordered.
module HomeNodes {
  import opened Text
  import opened Framing

  type Node = nat

  // What a listener does with a message: the table after it, and the message it multicasts.
  function TableAfter(table: map<string, string>, m: Incoming): map<string, string> {
    if m.Announce? then table[m.path := m.host] else table
  }

  function Reply(table: map<string, string>, hostname: string, m: Incoming): Option<string> {
    if m.Query? && m.path in table && table[m.path] == hostname then Some(Frame(SET, m.path + " " + hostname)) else None
  }

  // What a node asks for, and answers.
  function Question(table: map<string, string>, p: string): Option<string> {
    if p in table then None else Some(Frame(GET, p))
  }

  const NO_HOME_NODE := "<NONE>"

  function Answer(table: map<string, string>, p: string): string {
    if p in table then table[p] else NO_HOME_NODE
  }

  class HomeTable {
    const hostname: string
    var homes: map<string, string>

    constructor (hostname: string)
      ensures this.hostname == hostname && homes == map[]
    {
      this.hostname := hostname;
      homes := map[];
    }

    // One message handled by home_node_listener, which needs as many tokens as it reads.
    method Receive(message: string) returns (reply: Option<string>)
      requires !Read(message).Broken?
      modifies this
      ensures homes == TableAfter(old(homes), Read(message))
      ensures reply == Reply(old(homes), hostname, Read(message))
      ensures forall path, host | Read(message) == Announce(path, host) ::
        homes == old(homes)[path := host] && reply == None
      ensures forall path | Read(message) == Query(path) ::
        && homes == old(homes)
        && reply == if path in homes && homes[path] == hostname then Some(Frame(SET, path + " " + hostname)) else None
    {
      var tokens := Tokenise(message);
      WordsOfText(message);
      assert tokens[0] in tokens;
      var path := tokens[1];
      reply := None;
      if tokens[0][0] == '!' {
        homes := homes[path := tokens[2]];
      } else {
        if path !in homes {
          return;
        }
        if homes[path] == hostname {
          reply := Some(Frame(SET, path + " " + hostname));
        }
      }
    }

    // The second half of setHomeNode.
    method Store(path: string)
      modifies this
      ensures homes == old(homes)[path := hostname]
    {
      homes := homes[path := hostname];
    }

    // The first half of getHomeNode: the query it multicasts when it finds no home.
    method Ask(path: string) returns (query: Option<string>)
      ensures query == Question(homes, path)
    {
      if path in homes {
        return None;
      }
      query := Some(Frame(GET, path));
    }

    // What getHomeNode answers, at once or after the wait.
    method Find(path: string) returns (home: string)
      ensures home == Answer(homes, path)
    {
      if path in homes {
        return homes[path];
      }
      home := NO_HOME_NODE;
    }
  }

  // ---- The network ----

  datatype Flight = Flight(to: Node, sender: Node, message: string)

  // declared holds each path with the hostname of every node that called setHomeNode on it.
  datatype Net = Net(
    subscribed: set<Node>, tables: map<Node, map<string, string>>, flights: multiset<Flight>,
    declared: set<(string, string)>)

  function Table(tables: map<Node, map<string, string>>, n: Node): map<string, string> {
    if n in tables then tables[n] else map[]
  }

  function ToAll(nodes: set<Node>, sender: Node, message: string): multiset<Flight> {
    multiset(set n | n in nodes :: Flight(n, sender, message))
  }

  datatype Act =
    | Join(n: Node)
    | Declare(n: Node, p: string)    // setHomeNode sends
    | Store(n: Node, p: string)    // and then stores
    | Ask(n: Node, p: string)    // getHomeNode queries
    | Deliver(f: Flight)
    | Lose(f: Flight)
    | Repeat(f: Flight)

  predicate Enabled(net: Net, a: Act, host: Node -> string) {
    match a
    case Store(n, p) => (p, host(n)) in net.declared
    case Deliver(f) => f in net.flights && !Read(f.message).Broken?
    case Lose(f) => f in net.flights
    case Repeat(f) => f in net.flights
    case _ => true
  }

  function After(net: Net, a: Act, host: Node -> string): Net {
    match a
    case Join(n) => net.(subscribed := net.subscribed + {n})
    case Declare(n, p) => net.(
      declared := net.declared + {(p, host(n))},
      flights := net.flights + ToAll(net.subscribed, n, Frame(SET, p + " " + host(n))))
    case Store(n, p) => net.(tables := net.tables[n := Table(net.tables, n)[p := host(n)]])
    case Ask(n, p) =>
      var query := Question(Table(net.tables, n), p);
      if query.None? then net else net.(flights := net.flights + ToAll(net.subscribed, n, query.value))
    case Deliver(f) =>
      var m := Read(f.message);
      var reply := Reply(Table(net.tables, f.to), host(f.to), m);
      net.(tables := net.tables[f.to := TableAfter(Table(net.tables, f.to), m)],
           flights := net.flights - multiset{f} + (if reply.Some? then ToAll(net.subscribed, f.to, reply.value) else multiset{}))
    case Lose(f) => net.(flights := net.flights - multiset{f})
    case Repeat(f) => net.(flights := net.flights + multiset{f})
  }

  const SILENT := Net({}, map[], multiset{}, {})

  ghost predicate IsRun(nets: seq<Net>, acts: seq<Act>, host: Node -> string) {
    && |nets| == |acts| + 1
    && forall i | 0 <= i < |acts| :: Enabled(nets[i], acts[i], host) && nets[i + 1] == After(nets[i], acts[i], host)
  }

  // The announcement of p from a host of this name is read back as it was meant.
  predicate Sendable(p: string, hostname: string) {
    Plain(p) && Plain(hostname) && |p| + 1 + |hostname| <= CAPACITY
  }

  // ---- Provenance ----

  // A message in flight is a query, or announces its sender's own hostname for a declared path.
  ghost predicate WellSent(net: Net, f: Flight, host: Node -> string) {
    || (exists p :: f.message == Frame(GET, p))
    || (exists p :: f.message == Frame(SET, p + " " + host(f.sender)) && (p, host(f.sender)) in net.declared)
  }

  predicate AllDeclared(table: map<string, string>, declared: set<(string, string)>) {
    forall p | p in table :: (p, table[p]) in declared
  }

  ghost predicate TablesDeclared(tables: map<Node, map<string, string>>, declared: set<(string, string)>) {
    forall n | n in tables :: AllDeclared(tables[n], declared)
  }

  ghost predicate Provenance(net: Net, host: Node -> string) {
    && (forall p, h | (p, h) in net.declared :: Sendable(p, h))
    && (forall f | f in net.flights :: WellSent(net, f, host))
    && TablesDeclared(net.tables, net.declared)
  }

  lemma QueryReads(p: string)
    ensures !Read(Frame(GET, p)).Announce?
  {
    var t := Clipped(CString(p));
    FrameWords(GET, p);
    assert Words(Frame(GET, p))[0] == ['?'];
  }

  lemma ToAllHas(nodes: set<Node>, sender: Node, message: string)
    ensures forall f | f in ToAll(nodes, sender, message) :: f.sender == sender && f.message == message
  {
  }

  // A delivered announcement was declared, and so is what a node replies.
  lemma DeliveryDeclared(net: Net, f: Flight, host: Node -> string)
    requires Provenance(net, host) && f in net.flights
    ensures var m := Read(f.message);
      && (m.Announce? ==> (m.path, m.host) in net.declared)
      && var reply := Reply(Table(net.tables, f.to), host(f.to), m);
         reply.Some? ==> reply.value == Frame(SET, m.path + " " + host(f.to)) && (m.path, host(f.to)) in net.declared
  {
    hide Read, Frame;
    assert WellSent(net, f, host);
    if p :| f.message == Frame(GET, p) {
      QueryReads(p);
    } else {
      var p :| f.message == Frame(SET, p + " " + host(f.sender)) && (p, host(f.sender)) in net.declared;
      AnnounceFraming(p, host(f.sender));
    }
  }

  lemma StepProvenance(net: Net, a: Act, host: Node -> string)
    requires Provenance(net, host) && Enabled(net, a, host)
    requires a.Declare? ==> Sendable(a.p, host(a.n))
    ensures Provenance(After(net, a, host), host)
  {
    hide Sendable, WellSent, TablesDeclared;
    StepFlights(net, a, host);
    StepTables(net, a, host);
  }

  lemma StepFlights(net: Net, a: Act, host: Node -> string)
    requires Provenance(net, host) && Enabled(net, a, host)
    ensures forall f | f in After(net, a, host).flights :: WellSent(After(net, a, host), f, host)
  {
    hide Read, Frame, Reply, ToAll, Sendable, TableAfter, Table, TablesDeclared;
    var net' := After(net, a, host);
    FlightsSent(net, net', host);
    match a
    case Declare(n, p) =>
      ToAllHas(net.subscribed, n, Frame(SET, p + " " + host(n)));
    case Ask(n, p) =>
      ToAllHas(net.subscribed, n, Frame(GET, p));
    case Deliver(f) =>
      DeliveryDeclared(net, f, host);
      var reply := Reply(Table(net.tables, f.to), host(f.to), Read(f.message));
      if reply.Some? {
        ToAllHas(net.subscribed, f.to, reply.value);
      }
    case _ =>
  }

  lemma StepTables(net: Net, a: Act, host: Node -> string)
    requires Provenance(net, host) && Enabled(net, a, host)
    ensures TablesDeclared(After(net, a, host).tables, After(net, a, host).declared)
  {
    hide Read, Frame, Reply, ToAll, Sendable, WellSent;
    if a.Deliver? {
      DeliveryDeclared(net, a.f, host);
    }
  }

  // Old messages stay well sent as declarations are added.
  lemma FlightsSent(net: Net, net': Net, host: Node -> string)
    requires net.declared <= net'.declared
    ensures forall f | WellSent(net, f, host) :: WellSent(net', f, host)
  {
  }

  // In every reachable state each announcement in flight carries its sender's own hostname, and each
  // stored home was declared by setHomeNode on that host, provided the declared paths are sendable.
  lemma {:induction false} EveryHomeDeclared(nets: seq<Net>, acts: seq<Act>, host: Node -> string, i: nat)
    requires IsRun(nets, acts, host) && nets[0] == SILENT && i < |nets|
    requires forall k | 0 <= k < |acts| && acts[k].Declare? :: Sendable(acts[k].p, host(acts[k].n))
    ensures Provenance(nets[i], host)
  {
    hide After, Enabled, Sendable;
    if i > 0 {
      EveryHomeDeclared(nets, acts, host, i - 1);
      StepProvenance(nets[i - 1], acts[i - 1], host);
    } else {
      SilentProvenance(host);
    }
  }

  lemma SilentProvenance(host: Node -> string)
    ensures Provenance(SILENT, host)
  {
  }

  // If one hostname alone ever declares a path, every node answers with that hostname or with none.
  lemma AnswersAgree(nets: seq<Net>, acts: seq<Act>, host: Node -> string, i: nat, n: Node, p: string, hostname: string)
    requires IsRun(nets, acts, host) && nets[0] == SILENT && i < |nets|
    requires forall k | 0 <= k < |acts| && acts[k].Declare? :: Sendable(acts[k].p, host(acts[k].n))
    requires forall h | (p, h) in nets[i].declared :: h == hostname
    ensures Answer(Table(nets[i].tables, n), p) == if p in Table(nets[i].tables, n) then hostname else NO_HOME_NODE
  {
    hide After, Enabled, Sendable;
    EveryHomeDeclared(nets, acts, host, i);
  }

  // ---- Delivery without loss ----

  // r knows a home for p, or will: it is announced to r, or asked of a node that holds itself for it.
  ghost predicate Coming(net: Net, r: Node, p: string, hostname: string, host: Node -> string) {
    && r in net.subscribed
    && (|| p in Table(net.tables, r)
        || (exists n :: Flight(r, n, Frame(SET, p + " " + hostname)) in net.flights)
        || (exists h, n :: host(h) == hostname && p in Table(net.tables, h) && Table(net.tables, h)[p] == hostname
              && Flight(h, n, Frame(GET, p)) in net.flights))
  }

  // Only this hostname declares p, and every message is read back as it was meant.
  ghost predicate SoleHome(net: Net, p: string, hostname: string, host: Node -> string) {
    Provenance(net, host) && Sendable(p, hostname) && forall h | (p, h) in net.declared :: h == hostname
  }

  lemma SoleAnswer(net: Net, n: Node, p: string, hostname: string, host: Node -> string)
    requires SoleHome(net, p, hostname, host) && p in Table(net.tables, n)
    ensures Table(net.tables, n)[p] == hostname
  {
    hide Sendable, WellSent;
  }

  lemma KnownStays(net: Net, a: Act, host: Node -> string, n: Node, p: string)
    requires p in Table(net.tables, n)
    ensures p in Table(After(net, a, host).tables, n)
    ensures net.subscribed <= After(net, a, host).subscribed
  {
    hide Read, Frame, Reply, ToAll, Question;
  }

  lemma FlightStays(net: Net, a: Act, host: Node -> string, f: Flight)
    requires f in net.flights && a != Lose(f) && a != Deliver(f)
    ensures f in After(net, a, host).flights
  {
    hide Read, Frame, Reply, ToAll, Question, TableAfter, Table;
  }

  lemma ToAllReaches(nodes: set<Node>, sender: Node, message: string, r: Node)
    requires r in nodes
    ensures Flight(r, sender, message) in ToAll(nodes, sender, message)
  {
  }

  lemma AnnouncementRead(p: string, hostname: string)
    requires Sendable(p, hostname)
    ensures Read(Frame(SET, p + " " + hostname)) == Announce(p, hostname) && Read(Frame(GET, p)) == Query(p)
  {
    hide Read, Frame;
    AnnounceFraming(p, hostname);
    QueryFraming(p);
  }

  lemma StepComing(net: Net, a: Act, host: Node -> string, r: Node, p: string, hostname: string)
    requires Coming(net, r, p, hostname, host) && Enabled(net, a, host) && !a.Lose?
    requires SoleHome(net, p, hostname, host) && SoleHome(After(net, a, host), p, hostname, host)
    ensures Coming(After(net, a, host), r, p, hostname, host)
  {
    hide Read, Frame, ToAll, Question, Provenance, Sendable, SoleHome, After, Table;
    var net' := After(net, a, host);
    assert net.subscribed <= net'.subscribed by {
      Subscribed(net, a, host);
    }
    if p in Table(net.tables, r) {
      KnownStays(net, a, host, r, p);
    } else if n :| Flight(r, n, Frame(SET, p + " " + hostname)) in net.flights {
      AnnouncementComes(net, a, host, r, n, p, hostname);
    } else {
      var h, n :| host(h) == hostname && p in Table(net.tables, h) && Table(net.tables, h)[p] == hostname
        && Flight(h, n, Frame(GET, p)) in net.flights;
      KnownStays(net, a, host, h, p);
      SoleAnswer(net', h, p, hostname, host);
      QueryComes(net, a, host, h, n, r, p, hostname);
    }
  }

  lemma Subscribed(net: Net, a: Act, host: Node -> string)
    ensures net.subscribed <= After(net, a, host).subscribed
  {
    hide Read, Frame, Reply, ToAll, Question, TableAfter, Table;
  }

  lemma AnnouncementComes(net: Net, a: Act, host: Node -> string, r: Node, n: Node, p: string, hostname: string)
    requires Flight(r, n, Frame(SET, p + " " + hostname)) in net.flights && !a.Lose? && SoleHome(net, p, hostname, host)
    ensures var net' := After(net, a, host);
      p in Table(net'.tables, r) || Flight(r, n, Frame(SET, p + " " + hostname)) in net'.flights
  {
    hide Read, Frame, Reply, ToAll, Question, Provenance, Sendable;
    var f := Flight(r, n, Frame(SET, p + " " + hostname));
    AnnouncementRead(p, hostname);
    if a != Deliver(f) {
      FlightStays(net, a, host, f);
    }
  }

  lemma QueryComes(net: Net, a: Act, host: Node -> string, h: Node, n: Node, r: Node, p: string, hostname: string)
    requires host(h) == hostname && p in Table(net.tables, h) && Table(net.tables, h)[p] == hostname
    requires Flight(h, n, Frame(GET, p)) in net.flights && r in net.subscribed && !a.Lose? && SoleHome(net, p, hostname, host)
    ensures var net' := After(net, a, host);
      || Flight(h, n, Frame(GET, p)) in net'.flights
      || Flight(r, h, Frame(SET, p + " " + hostname)) in net'.flights
  {
    hide Read, Frame, ToAll, Question, Provenance, Sendable, TableAfter;
    var f := Flight(h, n, Frame(GET, p));
    AnnouncementRead(p, hostname);
    if a == Deliver(f) {
      ToAllReaches(net.subscribed, h, Frame(SET, p + " " + hostname), r);
    } else {
      FlightStays(net, a, host, f);
    }
  }

  lemma {:induction false} DeclaredGrows(nets: seq<Net>, acts: seq<Act>, host: Node -> string, i: nat, j: nat)
    requires IsRun(nets, acts, host) && i <= j < |nets|
    ensures nets[i].declared <= nets[j].declared
    decreases j
  {
    hide Enabled, Read, Frame, Reply, ToAll, Question, TableAfter, Table;
    if i < j {
      DeclaredGrows(nets, acts, host, i, j - 1);
      assert nets[j - 1 + 1] == After(nets[j - 1], acts[j - 1], host);
    }
  }

  lemma {:induction false} StaysComing(nets: seq<Net>, acts: seq<Act>, host: Node -> string, i: nat, j: nat, r: Node,
                                       p: string, hostname: string)
    requires IsRun(nets, acts, host) && i <= j < |nets|
    requires forall k | i <= k < j :: !acts[k].Lose?
    requires forall k | i <= k <= j :: SoleHome(nets[k], p, hostname, host)
    requires Coming(nets[i], r, p, hostname, host)
    ensures Coming(nets[j], r, p, hostname, host)
    decreases j
  {
    hide After, Enabled, Coming, SoleHome;
    if i < j {
      StaysComing(nets, acts, host, i, j - 1, r, p, hostname);
      assert SoleHome(nets[j - 1], p, hostname, host) && SoleHome(nets[j], p, hostname, host);
      assert Enabled(nets[j - 1], acts[j - 1], host) && nets[j - 1 + 1] == After(nets[j - 1], acts[j - 1], host);
      StepComing(nets[j - 1], acts[j - 1], host, r, p, hostname);
    }
  }

  lemma SoleAlong(nets: seq<Net>, acts: seq<Act>, host: Node -> string, j: nat, p: string, hostname: string, k: nat)
    requires IsRun(nets, acts, host) && nets[0] == SILENT && k <= j < |nets|
    requires forall k | 0 <= k < |acts| && acts[k].Declare? :: Sendable(acts[k].p, host(acts[k].n))
    requires Sendable(p, hostname) && forall h | (p, h) in nets[j].declared :: h == hostname
    ensures SoleHome(nets[k], p, hostname, host)
  {
    hide After, Enabled, Sendable, Provenance;
    EveryHomeDeclared(nets, acts, host, k);
    DeclaredGrows(nets, acts, host, k, j);
  }

  // Without loss from some query on, once nothing is in flight the asking node answers with the home
  // of the path, if a subscriber took itself for it when it was asked and no other hostname declares
  // the path.
  lemma QueryAnswered(nets: seq<Net>, acts: seq<Act>, host: Node -> string, i: nat, j: nat, r: Node, p: string, h: Node)
    requires IsRun(nets, acts, host) && nets[0] == SILENT && i < j < |nets|
    requires forall k | 0 <= k < |acts| && acts[k].Declare? :: Sendable(acts[k].p, host(acts[k].n))
    requires forall g | (p, g) in nets[j].declared :: g == host(h)
    requires acts[i] == Ask(r, p) && r in nets[i].subscribed && p !in Table(nets[i].tables, r)
    requires h in nets[i].subscribed && p in Table(nets[i].tables, h)
    requires forall k | i <= k < j :: !acts[k].Lose?
    requires nets[j].flights == multiset{}
    ensures Answer(Table(nets[j].tables, r), p) == host(h)
  {
    hide After, Enabled, Sendable, Provenance, Frame, Table, Coming;
    HomeSendable(nets, acts, host, i, h, p, j);
    forall k | 0 <= k <= j
      ensures SoleHome(nets[k], p, host(h), host)
    {
      SoleAlong(nets, acts, host, j, p, host(h), k);
    }
    AskedComes(nets[i], host, r, p, h);
    assert nets[i + 1] == After(nets[i], acts[i], host);
    StaysComing(nets, acts, host, i + 1, j, r, p, host(h));
    SilentComing(nets[j], r, p, host(h), host);
  }

  lemma HomeSendable(nets: seq<Net>, acts: seq<Act>, host: Node -> string, i: nat, h: Node, p: string, j: nat)
    requires IsRun(nets, acts, host) && nets[0] == SILENT && i <= j < |nets| && p in Table(nets[i].tables, h)
    requires forall k | 0 <= k < |acts| && acts[k].Declare? :: Sendable(acts[k].p, host(acts[k].n))
    requires forall g | (p, g) in nets[j].declared :: g == host(h)
    ensures Sendable(p, host(h))
  {
    hide After, Enabled, Sendable, WellSent;
    EveryHomeDeclared(nets, acts, host, i);
    DeclaredGrows(nets, acts, host, i, j);
  }

  lemma AskedComes(net: Net, host: Node -> string, r: Node, p: string, h: Node)
    requires r in net.subscribed && h in net.subscribed && p !in Table(net.tables, r) && p in Table(net.tables, h)
    requires SoleHome(net, p, host(h), host)
    ensures Coming(After(net, Ask(r, p), host), r, p, host(h), host)
  {
    hide Read, Frame, Reply, ToAll, Provenance, Sendable, Table;
    SoleAnswer(net, h, p, host(h), host);
    ToAllReaches(net.subscribed, r, Frame(GET, p), h);
  }

  lemma SilentComing(net: Net, r: Node, p: string, hostname: string, host: Node -> string)
    requires Coming(net, r, p, hostname, host) && net.flights == multiset{} && SoleHome(net, p, hostname, host)
    ensures Answer(Table(net.tables, r), p) == hostname
  {
    hide Frame, Provenance, Sendable;
    SoleAnswer(net, r, p, hostname, host);
  }

  // The same for every node subscribed when the home was announced.
  lemma AnnouncementReceived(nets: seq<Net>, acts: seq<Act>, host: Node -> string, i: nat, j: nat, n: Node, r: Node, p: string)
    requires IsRun(nets, acts, host) && nets[0] == SILENT && i < j < |nets|
    requires forall k | 0 <= k < |acts| && acts[k].Declare? :: Sendable(acts[k].p, host(acts[k].n))
    requires forall g | (p, g) in nets[j].declared :: g == host(n)
    requires acts[i] == Declare(n, p) && r in nets[i].subscribed
    requires forall k | i <= k < j :: !acts[k].Lose?
    requires nets[j].flights == multiset{}
    ensures Answer(Table(nets[j].tables, r), p) == host(n)
  {
    hide Enabled, Sendable, Provenance, Frame, Table, SoleHome, ToAll;
    assert nets[i + 1] == After(nets[i], acts[i], host);
    ToAllReaches(nets[i].subscribed, n, Frame(SET, p + " " + host(n)), r);
    hide After;
    forall k | 0 <= k <= j
      ensures SoleHome(nets[k], p, host(n), host)
    {
      SoleAlong(nets, acts, host, j, p, host(n), k);
    }
    StaysComing(nets, acts, host, i + 1, j, r, p, host(n));
    SilentComing(nets[j], r, p, host(n), host);
  }

  // ---- Why paths must be plain ----

  // A path with a space is taken apart: one node declaring "a b" leaves the others, and itself,
  // believing that the home of "a" is "b".
  lemma SpacedPathCorrupts(nets: seq<Net>, host: Node -> string, f: Flight)
    requires IsRun(nets, [Join(0), Declare(0, "a b"), Deliver(f)], host) && nets[0] == SILENT
    requires Plain(host(0)) && |host(0)| + 4 <= CAPACITY
    requires f == Flight(0, 0, Frame(SET, "a b" + " " + host(0)))
    ensures "a" in Table(nets[3].tables, 0) && Table(nets[3].tables, 0)["a"] == "b" && ("a", "b") !in nets[3].declared
  {
    var text := "a b" + " " + host(0);
    SpacedText(host(0));
    FrameWords(SET, text);
    hide Read, Frame;
    var acts := [Join(0), Declare(0, "a b"), Deliver(f)];
    assert nets[1] == After(nets[0], acts[0], host);
    assert nets[2] == After(nets[1], acts[1], host);
    assert nets[3] == After(nets[2], acts[2], host);
    assert Read(f.message) == Announce("a", "b") by {
      SpacedRead(host(0));
    }
  }

  lemma SpacedText(h: string)
    requires Plain(h) && |h| + 4 <= CAPACITY
    ensures Clipped(CString("a b" + " " + h)) == Spaced(["a", "b", h])
  {
    hide Before;
    var text := "a b" + " " + h;
    BeforeWhole(text, NUL);
    var words := ["a", "b", h];
    assert words[1..] == ["b", h] && words[1..][1..] == [h];
    assert Spaced(words[1..]) == "b" + " " + h;
    assert Spaced(words) == "a" + " " + ("b" + " " + h);
    SpacedConcat(h);
  }

  lemma SpacedConcat(h: string)
    ensures "a b" + " " + h == "a" + " " + ("b" + " " + h)
  {
    assert "a b" == "a" + " " + "b";
  }

  lemma SpacedRead(h: string)
    requires Plain(h) && |h| + 4 <= CAPACITY
    ensures Read(Frame(SET, "a b" + " " + h)) == Announce("a", "b")
  {
    SpacedText(h);
    WordsOfSpaced(["a", "b", h]);
    FrameWords(SET, "a b" + " " + h);
  }
}
