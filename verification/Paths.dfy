// std::filesystem::path::parent_path on path text.
module Paths {

  // The text up to and including its last `/`, or "" when there is none.
  function Directory(p: string): (d: string)
    ensures d <= p
  {
    if p == "" || p[|p| - 1] == '/' then p else Directory(p[..|p| - 1])
  }

  function TrimSlashes(p: string): (d: string)
    ensures d <= p && (d != "" ==> d[|d| - 1] != '/')
  {
    if p != "" && p[|p| - 1] == '/' then TrimSlashes(p[..|p| - 1]) else p
  }

  function Parent(p: string): (d: string)
    ensures d <= p
  {
    var directory := Directory(p);
    var trimmed := TrimSlashes(directory);
    if trimmed != "" || directory == "" then trimmed
    else if directory == p then p    // only slashes: the root is its own parent
    else p[..1]
  }

  predicate OnlySlashes(p: string) {
    forall i | 0 <= i < |p| :: p[i] == '/'
  }

  // Only the root, written with one slash or several, is its own parent.
  lemma OwnParentIsRoot(p: string)
    requires p != ""
    ensures Parent(p) == p <==> OnlySlashes(p)
  {
    TrimEmptyIffOnlySlashes(p);
    if Directory(p) == p && !OnlySlashes(p) {
      assert TrimSlashes(p) != p;
    }
  }

  lemma {:induction false} TrimEmptyIffOnlySlashes(p: string)
    ensures TrimSlashes(p) == "" <==> OnlySlashes(p)
  {
    if p != "" {
      TrimEmptyIffOnlySlashes(p[..|p| - 1]);
      assert p == p[..|p| - 1] + [p[|p| - 1]];
    }
  }

  lemma {:induction false} DirectoryOf(prefix: string, name: string)
    requires '/' !in name && (prefix == "" || prefix[|prefix| - 1] == '/')
    ensures Directory(prefix + name) == prefix
  {
    if name == "" {
      assert prefix + name == prefix;
    } else {
      var n := |name| - 1;
      assert (prefix + name)[..|prefix| + n] == prefix + name[..n] && name[n] in name;
      DirectoryOf(prefix, name[..n]);
    }
  }

  // A name put under a directory has it for parent; a bare name has none, and one under the root
  // has the root. A slash at the end makes a path of its own, for std::filesystem.
  lemma ParentOfChild(d: string, name: string)
    requires name != "" && '/' !in name
    ensures Parent(name) == ""
    ensures Parent("/" + name) == "/"
    ensures d != "" && d[|d| - 1] != '/' ==> Parent(d + "/" + name) == d && Parent(d + "/") == d
  {
    hide Directory, TrimSlashes;
    DirectoryOf("", name);
    assert "" + name == name;
    DirectoryOf("/", name);
    TrimmedSlash("");
    assert "" + "/" == "/";
    if d != "" && d[|d| - 1] != '/' {
      DirectoryOf(d + "/", name);
      DirectoryOf(d + "/", "");
      assert d + "/" + "" == d + "/";
      TrimmedSlash(d);
    }
  }

  lemma TrimmedSlash(d: string)
    requires d == "" || d[|d| - 1] != '/'
    ensures TrimSlashes(d + "/") == d && TrimSlashes(d) == d
  {
    var s := d + "/";
    assert s[..|s| - 1] == d;
  }
}
