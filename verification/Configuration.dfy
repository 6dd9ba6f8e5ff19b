// The runtime configuration: a nested TOML table flattened into dotted keys over the defaults, and
// read back as text or as an integer.
module Configuration {
  import opened Text

  datatype Value = Words(text: string) | Flag(on: bool) | Number(n: int) | Table(rows: seq<Row>)

  datatype Row = Row(key: string, value: Value)

  function Rendered(v: Value): string
    requires !v.Table?
  {
    match v
    case Words(text) => text
    case Flag(on) => if on then "true" else "false"
    case Number(n) => IntText(n)
  }

  function FullKey(prefix: string, key: string): string {
    if prefix == "" then key else prefix + "." + key
  }

  // A leaf with the keys that lead to it and the flat key it is stored under.
  datatype Leaf = Leaf(path: seq<string>, key: string, value: Value)

  // The leaves of a table in traversal order, below the keys at, whose flat form is prefix.
  function Leaves(rows: seq<Row>, at: seq<string>, prefix: string): (leaves: seq<Leaf>)
    ensures forall leaf | leaf in leaves :: !leaf.value.Table?
    decreases rows
  {
    if rows == [] then []
    else
      var last := rows[|rows| - 1];
      Leaves(rows[..|rows| - 1], at, prefix) + RowLeaves(last, at, prefix)
  }

  function RowLeaves(row: Row, at: seq<string>, prefix: string): (leaves: seq<Leaf>)
    ensures forall leaf | leaf in leaves :: !leaf.value.Table?
    decreases row
  {
    var path, key := at + [row.key], FullKey(prefix, row.key);
    if row.value.Table? then Leaves(row.value.rows, path, key) else [Leaf(path, key, row.value)]
  }

  function Stored(config: map<string, string>, leaves: seq<Leaf>): map<string, string>
    requires forall leaf | leaf in leaves :: !leaf.value.Table?
  {
    if leaves == [] then config
    else
      var last := leaves[|leaves| - 1];
      Stored(config, leaves[..|leaves| - 1])[last.key := Rendered(last.value)]
  }

  lemma {:induction false} StoredConcat(config: map<string, string>, leaves: seq<Leaf>, more: seq<Leaf>)
    requires forall leaf | leaf in leaves + more :: !leaf.value.Table?
    ensures forall leaf | leaf in leaves :: !leaf.value.Table?
    ensures forall leaf | leaf in more :: !leaf.value.Table?
    ensures Stored(config, leaves + more) == Stored(Stored(config, leaves), more)
  {
    assert forall leaf | leaf in leaves :: leaf in leaves + more;
    assert forall leaf | leaf in more :: leaf in leaves + more;
    if more == [] {
      assert leaves + more == leaves;
    } else {
      var all, init := leaves + more, more[..|more| - 1];
      assert all[..|all| - 1] == leaves + init;
      StoredConcat(config, leaves, init);
    }
  }

  const DEFAULTS: seq<(string, string)> := [
    ("monitor.mcast.commit.ip", "224.224.224.1"),
    ("monitor.mcast.commit.port", "12345"),
    ("monitor.mcast.homenode.ip", "224.224.224.2"),
    ("monitor.mcast.homenode.port", "12345"),
    ("monitor.mcast.delay_ms", "300"),
    ("monitor.filesystem.enabled", "true"),
    ("monitor.mcast.enabled", "true"),
    ("dynamic_api.port", "11223"),
    ("dynamic_api.ip", "224.224.224.3")]

  function Overlaid(config: map<string, string>, entries: seq<(string, string)>): map<string, string> {
    if entries == [] then config
    else Overlaid(config, entries[..|entries| - 1])[entries[|entries| - 1].0 := entries[|entries| - 1].1]
  }

  lemma OverlaidSnoc(config: map<string, string>, n: nat)
    requires n < |DEFAULTS|
    ensures Overlaid(config, DEFAULTS[..n + 1]) == Overlaid(config, DEFAULTS[..n])[DEFAULTS[n].0 := DEFAULTS[n].1]
  {
    assert DEFAULTS[..n + 1][..n] == DEFAULTS[..n];
  }

  lemma DefaultsOverlaid(config: map<string, string>)
    ensures Overlaid(config, DEFAULTS) == config
      ["monitor.mcast.commit.ip" := "224.224.224.1"]["monitor.mcast.commit.port" := "12345"]
      ["monitor.mcast.homenode.ip" := "224.224.224.2"]["monitor.mcast.homenode.port" := "12345"]
      ["monitor.mcast.delay_ms" := "300"]["monitor.filesystem.enabled" := "true"]["monitor.mcast.enabled" := "true"]
      ["dynamic_api.port" := "11223"]["dynamic_api.ip" := "224.224.224.3"]
  {
    hide Overlaid;
    forall n: nat | n < |DEFAULTS|
      ensures Overlaid(config, DEFAULTS[..n + 1]) == Overlaid(config, DEFAULTS[..n])[DEFAULTS[n].0 := DEFAULTS[n].1]
    {
      OverlaidSnoc(config, n);
    }
    NothingOverlaid(config);
    assert DEFAULTS[..0] == [] && DEFAULTS[..9] == DEFAULTS;
    assert Overlaid(config, DEFAULTS[..1]) == config[DEFAULTS[0].0 := DEFAULTS[0].1];
    assert Overlaid(config, DEFAULTS[..3]) == Overlaid(config, DEFAULTS[..1])
      [DEFAULTS[1].0 := DEFAULTS[1].1][DEFAULTS[2].0 := DEFAULTS[2].1];
    assert Overlaid(config, DEFAULTS[..6]) == Overlaid(config, DEFAULTS[..3])
      [DEFAULTS[3].0 := DEFAULTS[3].1][DEFAULTS[4].0 := DEFAULTS[4].1][DEFAULTS[5].0 := DEFAULTS[5].1];
    assert Overlaid(config, DEFAULTS[..9]) == Overlaid(config, DEFAULTS[..6])
      [DEFAULTS[6].0 := DEFAULTS[6].1][DEFAULTS[7].0 := DEFAULTS[7].1][DEFAULTS[8].0 := DEFAULTS[8].1];
  }

  lemma NothingOverlaid(config: map<string, string>)
    ensures Overlaid(config, []) == config
  {
  }

  class CapioClConfiguration {
    var config: map<string, string>

    constructor ()
      ensures config == map[]
    {
      config := map[];
    }

    method Set(key: string, value: string)
      modifies this
      ensures config == old(config)[key := value]
    {
      config := config[key := value];
    }

    // load_config_to_memory
    method LoadTable(rows: seq<Row>, ghost at: seq<string>, prefix: string)
      modifies this
      ensures config == Stored(old(config), Leaves(rows, at, prefix))
      decreases rows
    {
      for i := 0 to |rows|
        invariant config == Stored(old(config), Leaves(rows[..i], at, prefix))
      {
        var row := rows[i];
        assert rows[..i + 1][..i] == rows[..i];
        var fullKey := if prefix == "" then row.key else prefix + "." + row.key;
        StoredConcat(old(config), Leaves(rows[..i], at, prefix), RowLeaves(row, at, prefix));
        ghost var before := config;
        match row.value
        case Table(inner) => LoadTable(inner, at + [row.key], fullKey);
        case Words(text) => Set(fullKey, text);
        case Flag(on) =>
          if on {
            Set(fullKey, "true");
          } else {
            Set(fullKey, "false");
          }
        case Number(n) => Set(fullKey, IntText(n));
        assert config == Stored(before, RowLeaves(row, at, prefix));
      }
      assert rows[..|rows|] == rows;
    }

    // load: parsed is the file's table, or None when the file does not parse; false where it throws.
    method Load(path: string, parsed: Option<seq<Row>>) returns (ok: bool)
      modifies this
      ensures ok == (path != "" && parsed.Some?)
      ensures config == if ok then Stored(old(config), Leaves(parsed.value, [], "")) else old(config)
    {
      if path == "" || parsed.None? {
        return false;
      }
      LoadTable(parsed.value, [], "");
      ok := true;
    }

    // loadDefaults, one set after another.
    method LoadDefaults()
      modifies this
      ensures config == Overlaid(old(config), DEFAULTS)
      ensures config == old(config)
        ["monitor.mcast.commit.ip" := "224.224.224.1"]["monitor.mcast.commit.port" := "12345"]
        ["monitor.mcast.homenode.ip" := "224.224.224.2"]["monitor.mcast.homenode.port" := "12345"]
        ["monitor.mcast.delay_ms" := "300"]["monitor.filesystem.enabled" := "true"]["monitor.mcast.enabled" := "true"]
        ["dynamic_api.port" := "11223"]["dynamic_api.ip" := "224.224.224.3"]
    {
      for i := 0 to |DEFAULTS|
        invariant config == Overlaid(old(config), DEFAULTS[..i])
      {
        assert DEFAULTS[..i + 1][..i] == DEFAULTS[..i];
        Set(DEFAULTS[i].0, DEFAULTS[i].1);
      }
      assert DEFAULTS[..|DEFAULTS|] == DEFAULTS;
      DefaultsOverlaid(old(config));
    }

    // getParameter; None where it throws, on a missing key or an integer std::stoi refuses.
    method GetText(key: string) returns (value: Option<string>)
      ensures value == if key in config then Some(config[key]) else None
    {
      value := if key in config then Some(config[key]) else None;
    }

    method GetInteger(key: string) returns (value: Option<int>)
      ensures value == if key in config then Stoi(config[key]) else None
    {
      value := if key in config then Stoi(config[key]) else None;
    }
  }

  // ---- What the flat map holds ----

  function LastAt(leaves: seq<Leaf>, key: string): (leaf: Option<Leaf>)
    ensures leaf.Some? ==> leaf.value in leaves && leaf.value.key == key
    ensures leaf.None? ==> forall l | l in leaves :: l.key != key
  {
    if leaves == [] then None
    else if leaves[|leaves| - 1].key == key then Some(leaves[|leaves| - 1])
    else LastAt(leaves[..|leaves| - 1], key)
  }

  // For every table: a key holds the last leaf flattened to it, or what it held before.
  lemma {:induction false} StoredAt(config: map<string, string>, leaves: seq<Leaf>, key: string)
    requires forall leaf | leaf in leaves :: !leaf.value.Table?
    ensures var after := Stored(config, leaves);
      match LastAt(leaves, key)
      case Some(leaf) => key in after && after[key] == Rendered(leaf.value)
      case None => (key in after <==> key in config) && (key in config ==> after[key] == config[key])
  {
    hide Rendered;
    if leaves != [] {
      var init := leaves[..|leaves| - 1];
      assert forall leaf | leaf in init :: leaf in leaves;
      StoredAt(config, init, key);
    }
  }

  predicate PlainKey(key: string) {
    key != "" && '.' !in key
  }

  ghost predicate DistinctKeys(rows: seq<Row>) {
    forall i, j | 0 <= i < j < |rows| :: rows[i].key != rows[j].key
  }

  // Non-empty dot-free keys, different within each table.
  ghost predicate PlainTable(rows: seq<Row>)
    decreases rows
  {
    && DistinctKeys(rows)
    && forall row | row in rows :: PlainKey(row.key) && (row.value.Table? ==> PlainTable(row.value.rows))
  }

  function Dotted(path: seq<string>): string {
    if path == [] then "" else if |path| == 1 then path[0] else path[0] + "." + Dotted(path[1..])
  }

  predicate PlainPath(path: seq<string>) {
    forall k | k in path :: PlainKey(k)
  }

  // Distinct paths of plain keys have distinct dotted forms.
  lemma {:induction false} DottedInjective(a: seq<string>, b: seq<string>)
    requires PlainPath(a) && PlainPath(b) && Dotted(a) == Dotted(b)
    ensures a == b
  {
    DottedHead(a);
    DottedHead(b);
    if a != [] {
      assert a[0] in a && b[0] in b;
      assert (forall k | k in a[1..] :: k in a) && forall k | k in b[1..] :: k in b;
      if |a| > 1 {
        assert Dotted(a)[|a[0]| + 1..] == Dotted(a[1..]);
        assert Dotted(b)[|b[0]| + 1..] == Dotted(b[1..]);
        DottedInjective(a[1..], b[1..]);
      }
    }
  }

  lemma {:induction false} DottedHead(a: seq<string>)
    requires PlainPath(a)
    ensures Dotted(a) == "" <==> a == []
    ensures a != [] ==> Before(Dotted(a), '.') == a[0] && (|a| == 1 <==> Dotted(a) == a[0])
  {
    hide Before;
    if a != [] {
      assert a[0] in a;
      if |a| == 1 {
        BeforeWhole(a[0], '.');
      } else {
        var rest := "." + Dotted(a[1..]);
        DottedCons(a);
        BeforeSeparator(a[0], '.', rest);
      }
    }
  }

  lemma DottedCons(a: seq<string>)
    requires |a| > 1
    ensures Dotted(a) == a[0] + ("." + Dotted(a[1..]))
  {
  }

  lemma {:induction false} DottedSnoc(path: seq<string>, key: string)
    requires PlainPath(path)
    ensures FullKey(Dotted(path), key) == Dotted(path + [key])
  {
    hide Before;
    DottedHead(path);
    if |path| == 1 {
      var two := path + [key];
      assert two[1..] == [key] && two[0] == path[0];
      assert Dotted(two) == path[0] + "." + Dotted([key]);
    } else if path != [] {
      var first, rest := path[0], path[1..];
      var longer := path + [key];
      assert longer[1..] == rest + [key] && longer[0] == first;
      assert forall k | k in rest :: k in path;
      DottedSnoc(rest, key);
      DottedHead(rest);
      PrefixDots(first, Dotted(rest), key);
    }
  }

  lemma PrefixDots(a: string, b: string, c: string)
    ensures (a + "." + b) + "." + c == a + "." + (b + "." + c)
  {
  }

  // In a plain table every leaf is stored under its own dotted path.
  lemma {:induction false} LeafKeysDotted(rows: seq<Row>, at: seq<string>)
    requires PlainTable(rows) && PlainPath(at)
    ensures forall leaf | leaf in Leaves(rows, at, Dotted(at)) :: PlainPath(leaf.path) && leaf.key == Dotted(leaf.path)
    decreases rows
  {
    hide RowLeaves, Dotted, PlainKey;
    if rows != [] {
      var init, last := rows[..|rows| - 1], rows[|rows| - 1];
      assert rows == init + [last] && last in rows && forall row | row in init :: row in rows;
      LeafKeysDotted(init, at);
      RowKeysDotted(last, at);
    }
  }

  lemma {:induction false} RowKeysDotted(row: Row, at: seq<string>)
    requires PlainKey(row.key) && PlainPath(at) && (row.value.Table? ==> PlainTable(row.value.rows))
    ensures forall leaf | leaf in RowLeaves(row, at, Dotted(at)) :: PlainPath(leaf.path) && leaf.key == Dotted(leaf.path)
    decreases row
  {
    hide Leaves, Dotted;
    DottedSnoc(at, row.key);
    if row.value.Table? {
      LeafKeysDotted(row.value.rows, at + [row.key]);
    }
  }

  // v is the leaf reached from rows by the keys of path.
  predicate HasLeaf(rows: seq<Row>, path: seq<string>, v: Value)
    decreases path, 1
  {
    path != [] && !v.Table? && exists row | row in rows :: RowHasLeaf(row, path, v)
  }

  predicate RowHasLeaf(row: Row, path: seq<string>, v: Value)
    requires path != []
    decreases path, 0
  {
    row.key == path[0] && if |path| == 1 then row.value == v else row.value.Table? && HasLeaf(row.value.rows, path[1..], v)
  }

  // The traversal meets exactly the leaves of the nested table.
  lemma {:induction false} LeavesAreLeaves(rows: seq<Row>, at: seq<string>, prefix: string, path: seq<string>, v: Value)
    ensures HasLeaf(rows, path, v) <==>
      path != [] && exists leaf | leaf in Leaves(rows, at, prefix) :: leaf.path == at + path && leaf.value == v
    decreases rows
  {
    hide FullKey, Leaves, RowLeaves;
    if path != [] && !v.Table? {
      forall row | row in rows
        ensures RowHasLeaf(row, path, v) <==>
          exists leaf | leaf in RowLeaves(row, at, prefix) :: leaf.path == at + path && leaf.value == v
      {
        RowLeavesAreLeaves(row, at, prefix, path, v);
      }
      LeavesOfRows(rows, at, prefix);
    }
  }

  lemma {:induction false} RowLeavesAreLeaves(row: Row, at: seq<string>, prefix: string, path: seq<string>, v: Value)
    requires path != [] && !v.Table?
    ensures RowHasLeaf(row, path, v) <==>
      exists leaf | leaf in RowLeaves(row, at, prefix) :: leaf.path == at + path && leaf.value == v
    decreases row
  {
    hide FullKey, Leaves;
    var below := at + [row.key];
    if row.value.Table? {
      LeavesAreLeaves(row.value.rows, below, FullKey(prefix, row.key), path[1..], v);
      LeavesBelow(row.value.rows, below, FullKey(prefix, row.key));
      if row.key == path[0] {
        assert at + path == below + path[1..];
      } else {
        assert (at + path)[|at|] != row.key;
      }
    } else {
      var leaf := Leaf(below, FullKey(prefix, row.key), row.value);
      assert RowLeaves(row, at, prefix) == [leaf];
      if below == at + path {
        assert (at + path)[|at|] == path[0] == row.key;
      }
    }
  }

  lemma {:induction false} LeavesOfRows(rows: seq<Row>, at: seq<string>, prefix: string)
    ensures forall leaf :: leaf in Leaves(rows, at, prefix) <==> exists row | row in rows :: leaf in RowLeaves(row, at, prefix)
  {
    hide RowLeaves;
    if rows != [] {
      var init, last := rows[..|rows| - 1], rows[|rows| - 1];
      assert rows == init + [last] && last in rows && forall row | row in init :: row in rows;
      LeavesOfRows(init, at, prefix);
    }
  }

  // Leaves lie below the keys they were collected under.
  lemma {:induction false} LeavesBelow(rows: seq<Row>, at: seq<string>, prefix: string)
    ensures forall leaf | leaf in Leaves(rows, at, prefix) ::
      && |leaf.path| > |at| && leaf.path[..|at|] == at
      && exists row | row in rows :: leaf.path[|at|] == row.key
    decreases rows
  {
    if rows != [] {
      var init, last := rows[..|rows| - 1], rows[|rows| - 1];
      assert rows == init + [last] && last in rows && forall row | row in init :: row in rows;
      LeavesBelow(init, at, prefix);
      RowLeavesBelow(last, at, prefix);
      hide RowLeaves;
    }
  }

  lemma {:induction false} RowLeavesBelow(row: Row, at: seq<string>, prefix: string)
    ensures forall leaf | leaf in RowLeaves(row, at, prefix) ::
      |leaf.path| > |at| && leaf.path[..|at|] == at && leaf.path[|at|] == row.key
    decreases row
  {
    if row.value.Table? {
      LeavesBelow(row.value.rows, at + [row.key], FullKey(prefix, row.key));
      forall leaf | leaf in RowLeaves(row, at, prefix)
        ensures |leaf.path| > |at| && leaf.path[..|at|] == at && leaf.path[|at|] == row.key
      {
        assert leaf.path[..|at|] == leaf.path[..|at| + 1][..|at|];
        assert leaf.path[|at|] == leaf.path[..|at| + 1][|at|];
      }
    }
  }

  // In a table with different keys at each level one path leads to one leaf.
  lemma {:induction false} LeafUnique(rows: seq<Row>, path: seq<string>, v: Value, w: Value)
    requires PlainTable(rows) && HasLeaf(rows, path, v) && HasLeaf(rows, path, w)
    ensures v == w
    decreases path
  {
    var a :| a in rows && RowHasLeaf(a, path, v);
    var b :| b in rows && RowHasLeaf(b, path, w);
    var i :| 0 <= i < |rows| && rows[i] == a;
    var j :| 0 <= j < |rows| && rows[j] == b;
    assert RowHasLeaf(a, path, v) && RowHasLeaf(b, path, w);
    assert a == b;
    if |path| > 1 {
      LeafUnique(a.value.rows, path[1..], v, w);
    }
  }

  ghost predicate IsLeafKey(rows: seq<Row>, key: string) {
    exists path, v :: HasLeaf(rows, path, v) && Dotted(path) == key
  }

  // A plain table flattens faithfully: each leaf is stored, rendered, at its dotted path; distinct
  // leaves have distinct keys; and every other key, a default included, keeps its value.
  lemma {:induction false} PlainTableFlattens(config: map<string, string>, rows: seq<Row>)
    requires PlainTable(rows)
    ensures var after := Stored(config, Leaves(rows, [], ""));
      && (forall path, v | HasLeaf(rows, path, v) :: Dotted(path) in after && after[Dotted(path)] == Rendered(v))
      && (forall path, text | HasLeaf(rows, path, Words(text)) :: after[Dotted(path)] == text)
      && (forall path, on | HasLeaf(rows, path, Flag(on)) :: after[Dotted(path)] == if on then "true" else "false")
      && (forall path, n | HasLeaf(rows, path, Number(n)) :: after[Dotted(path)] == IntText(n))
      && (forall key | !IsLeafKey(rows, key) ::
            (key in after <==> key in config) && (key in config ==> after[key] == config[key]))
    ensures forall a, v, b, w | HasLeaf(rows, a, v) && HasLeaf(rows, b, w) && a != b :: Dotted(a) != Dotted(b)
  {
    hide Leaves, Stored, PlainTable, Dotted, IntText;
    var leaves := Leaves(rows, [], "");
    var after := Stored(config, leaves);
    PlainLeaves(rows);
    forall path, v | HasLeaf(rows, path, v)
      ensures Dotted(path) in after && after[Dotted(path)] == Rendered(v)
    {
      StoredAt(config, leaves, Dotted(path));
      var leaf := LastAt(leaves, Dotted(path)).value;
      DottedInjective(leaf.path, path);
      LeafUnique(rows, path, v, leaf.value);
    }
    forall key | !IsLeafKey(rows, key)
      ensures (key in after <==> key in config) && (key in config ==> after[key] == config[key])
    {
      StoredAt(config, leaves, key);
    }
    forall a, v, b, w | HasLeaf(rows, a, v) && HasLeaf(rows, b, w) && Dotted(a) == Dotted(b)
      ensures a == b
    {
      DottedInjective(a, b);
    }
  }

  lemma PlainLeaves(rows: seq<Row>)
    requires PlainTable(rows)
    ensures var leaves := Leaves(rows, [], "");
      && (forall leaf | leaf in leaves :: HasLeaf(rows, leaf.path, leaf.value) && PlainPath(leaf.path) && leaf.key == Dotted(leaf.path))
      && (forall path, v | HasLeaf(rows, path, v) ::
            PlainPath(path) && exists leaf | leaf in leaves :: leaf.path == path && leaf.key == Dotted(path))
  {
    hide Leaves, HasLeaf, PlainTable;
    var leaves := Leaves(rows, [], "");
    assert Dotted([]) == "";
    LeafKeysDotted(rows, []);
    LeavesBelow(rows, [], "");
    forall leaf | leaf in leaves
      ensures HasLeaf(rows, leaf.path, leaf.value)
    {
      assert [] + leaf.path == leaf.path;
      LeavesAreLeaves(rows, [], "", leaf.path, leaf.value);
    }
    forall path, v | HasLeaf(rows, path, v)
      ensures PlainPath(path) && exists leaf | leaf in leaves :: leaf.path == path && leaf.key == Dotted(path)
    {
      assert [] + path == path;
      LeavesAreLeaves(rows, [], "", path, v);
    }
  }

  // An integer leaf reads back as itself exactly when an int holds it.
  lemma IntegerReadsBack(config: map<string, string>, rows: seq<Row>, path: seq<string>, n: int)
    requires PlainTable(rows) && HasLeaf(rows, path, Number(n))
    ensures var after := Stored(config, Leaves(rows, [], ""));
      Dotted(path) in after && Stoi(after[Dotted(path)]) == if FitsInt(n) then Some(n) else None
  {
    PlainTableFlattens(config, rows);
    StoiOfIntText(n);
  }

  // For every table: each leaf is found at its key exactly when leaves with the same key are rendered
  // alike.
  lemma LeavesFoundExactly(config: map<string, string>, rows: seq<Row>)
    ensures var leaves, after := Leaves(rows, [], ""), Stored(config, Leaves(rows, [], ""));
      (forall leaf | leaf in leaves :: leaf.key in after && after[leaf.key] == Rendered(leaf.value)) <==>
      (forall a, b | a in leaves && b in leaves && a.key == b.key :: Rendered(a.value) == Rendered(b.value))
  {
    hide Leaves, Stored, Rendered, LastAt;
    var leaves := Leaves(rows, [], "");
    forall leaf | leaf in leaves
      ensures var after := Stored(config, leaves);
        && leaf.key in after
        && LastAt(leaves, leaf.key).Some? && after[leaf.key] == Rendered(LastAt(leaves, leaf.key).value.value)
    {
      StoredAt(config, leaves, leaf.key);
    }
  }

  // A quoted key with a dot can hide another leaf: "a.b" beside b in table a.
  lemma DottedKeyCollides(config: map<string, string>, rows: seq<Row>)
    requires rows == [Row("a.b", Flag(true)), Row("a", Table([Row("b", Flag(false))]))]
    ensures HasLeaf(rows, ["a.b"], Flag(true)) && Dotted(["a.b"]) == "a.b"
    ensures var after := Stored(config, Leaves(rows, [], "")); "a.b" in after && after["a.b"] == "false"
  {
    assert rows[0] in rows;
    var inner := [Row("b", Flag(false))];
    assert inner[..0] == [];
    assert Leaves(inner, ["a"], "a") == [] + RowLeaves(inner[0], ["a"], "a");
    assert rows[..1] == [rows[0]] && rows[..1][..0] == [];
    assert [] + [rows[1].key] == ["a"];
    var leaves := Leaves(rows, [], "");
    assert leaves == Leaves(rows[..1], [], "") + RowLeaves(rows[1], [], "");
    var last := leaves[|leaves| - 1];
    assert last.key == "a" + "." + "b" == "a.b" && last.value == Flag(false);
  }
}
