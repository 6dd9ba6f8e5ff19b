// Where the API server listens, as read from the configuration.
module Settings {
  import opened Text
  import opened Configuration

  datatype Endpoint = Endpoint(address: string, port: int)

  const API_ADDRESS := "224.224.224.3"
  const API_PORT := 11223

  function EndpointOf(config: map<string, string>): Endpoint {
    Endpoint(
      if "dynamic_api.ip" in config then config["dynamic_api.ip"] else API_ADDRESS,
      if "dynamic_api.port" in config then GetOr(Stoi(config["dynamic_api.port"]), API_PORT) else API_PORT)
  }

  // The server's constructor falls back to the defaults whatever keeps it from reading a parameter.
  method ApiEndpoint(c: CapioClConfiguration) returns (endpoint: Endpoint)
    ensures endpoint == EndpointOf(c.config)
  {
    var address := c.GetText("dynamic_api.ip");
    var port := c.GetInteger("dynamic_api.port");
    endpoint := Endpoint(GetOr(address, API_ADDRESS), GetOr(port, API_PORT));
  }

  // ---- After the defaults and a file ----

  function Loaded(rows: seq<Row>): map<string, string> {
    Stored(Overlaid(map[], DEFAULTS), Leaves(rows, [], ""))
  }

  ghost predicate KeysDistinct(entries: seq<(string, string)>) {
    forall i, j | 0 <= i < j < |entries| :: entries[i].0 != entries[j].0
  }

  lemma {:induction false} OverlaidAt(config: map<string, string>, entries: seq<(string, string)>, i: nat)
    requires KeysDistinct(entries) && i < |entries|
    ensures var after := Overlaid(config, entries); entries[i].0 in after && after[entries[i].0] == entries[i].1
  {
    if i < |entries| - 1 {
      OverlaidAt(config, entries[..|entries| - 1], i);
    }
  }

  // A parameter has the value of the leaf at its path or, without one, its default.
  lemma {:induction false} LoadedAt(rows: seq<Row>, path: seq<string>, i: nat)
    requires PlainTable(rows) && PlainPath(path) && i < |DEFAULTS| && DEFAULTS[i].0 == Dotted(path)
    ensures Dotted(path) in Loaded(rows)
    ensures forall v | HasLeaf(rows, path, v) :: Loaded(rows)[Dotted(path)] == Rendered(v)
    ensures (forall v :: !HasLeaf(rows, path, v)) ==> Loaded(rows)[Dotted(path)] == DEFAULTS[i].1
  {
    hide Leaves, Stored, Overlaid, HasLeaf, PlainTable, Dotted, Rendered;
    assert KeysDistinct(DEFAULTS);
    OverlaidAt(map[], DEFAULTS, i);
    PlainTableFlattens(Overlaid(map[], DEFAULTS), rows);
    PlainLeaves(rows);
    if forall v :: !HasLeaf(rows, path, v) {
      forall other, v | HasLeaf(rows, other, v) && Dotted(other) == Dotted(path)
        ensures false
      {
        DottedInjective(other, path);
      }
    }
  }

  lemma ApiKeys()
    ensures PlainPath(["dynamic_api", "ip"]) && Dotted(["dynamic_api", "ip"]) == "dynamic_api.ip"
    ensures PlainPath(["dynamic_api", "port"]) && Dotted(["dynamic_api", "port"]) == "dynamic_api.port"
  {
    assert ["dynamic_api", "ip"][1..] == ["ip"] && ["dynamic_api", "port"][1..] == ["port"];
  }

  // The server listens at the address the file gives, or the default one, and on the port the file
  // gives, when an int holds what it gives, or the default one.
  lemma EndpointAfterLoad(rows: seq<Row>)
    requires PlainTable(rows)
    ensures var ip, endpoint := ["dynamic_api", "ip"], EndpointOf(Loaded(rows));
      && (forall v | HasLeaf(rows, ip, v) :: endpoint.address == Rendered(v))
      && ((forall v :: !HasLeaf(rows, ip, v)) ==> endpoint.address == API_ADDRESS)
    ensures var port, endpoint := ["dynamic_api", "port"], EndpointOf(Loaded(rows));
      && (forall v | HasLeaf(rows, port, v) :: endpoint.port == GetOr(Stoi(Rendered(v)), API_PORT))
      && (forall n | HasLeaf(rows, port, Number(n)) :: endpoint.port == if FitsInt(n) then n else API_PORT)
      && ((forall v :: !HasLeaf(rows, port, v)) ==> endpoint.port == API_PORT)
  {
    hide Loaded, PlainTable, Stoi, HasLeaf, Dotted, IntText, PlainPath;
    ApiKeys();
    LoadedAt(rows, ["dynamic_api", "ip"], 8);
    LoadedAt(rows, ["dynamic_api", "port"], 7);
    forall n
      ensures Stoi(IntText(n)) == if FitsInt(n) then Some(n) else None
    {
      StoiOfIntText(n);
    }
    DefaultPort();
  }

  lemma DefaultPort()
    ensures DEFAULTS[7].1 == IntText(API_PORT)
  {
    assert NatText(1) == "1" && NatText(11) == "11" && NatText(112) == "112";
    assert NatText(1122) == "1122";
  }
}
