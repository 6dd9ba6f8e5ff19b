// CapioCLEntry: the rules kept for one path, how two of them merge and when they are equal.
module Entries {

  const ON_CLOSE := "on_close"
  const ON_FILE := "on_file"
  const ON_N_FILES := "on_n_files"
  const ON_TERMINATION := "on_termination"
  const NO_UPDATE := "no_update"
  const UPDATE := "update"

  datatype Entry = Entry(
    producers: seq<string>, consumers: seq<string>, fileDependencies: seq<string>,
    commitRule: string, fireRule: string,
    childrenCount: int, closeCount: int, autoCount: bool,
    inMemory: bool, permanent: bool, excluded: bool, isFile: bool)

  const DEFAULT_ENTRY := Entry([], [], [], ON_TERMINATION, UPDATE, 0, 0, true, false, false, false, true)

  predicate ValidCommitRule(rule: string) {
    rule in [ON_CLOSE, ON_FILE, ON_N_FILES, ON_TERMINATION]
  }

  predicate ValidFireRule(rule: string) {
    rule in [NO_UPDATE, UPDATE]
  }

  ghost predicate NoDuplicates<T(!new)>(xs: seq<T>) {
    forall i, j | 0 <= i < j < |xs| :: xs[i] != xs[j]
  }

  // operator+=
  function Merge(e: Entry, rhs: Entry): Entry {
    Entry(
      e.producers + rhs.producers, e.consumers + rhs.consumers,
      e.fileDependencies + rhs.fileDependencies,
      rhs.commitRule, rhs.fireRule,
      e.childrenCount + rhs.childrenCount, e.closeCount + rhs.closeCount,
      e.autoCount && rhs.autoCount,
      e.inMemory || rhs.inMemory, e.permanent || rhs.permanent, e.excluded || rhs.excluded,
      e.isFile && rhs.isFile)
  }

  lemma MergeAssociative(a: Entry, b: Entry, c: Entry)
    ensures Merge(Merge(a, b), c) == Merge(a, Merge(b, c))
  {
    var left, right := Merge(Merge(a, b), c), Merge(a, Merge(b, c));
    assert left.producers == right.producers;
    assert left.consumers == right.consumers;
    assert left.fileDependencies == right.fileDependencies;
  }

  // The check operator== makes of two lists: equal sizes, and every element of the first in the second.
  predicate Covers<T(==)>(xs: seq<T>, ys: seq<T>) {
    |xs| == |ys| && forall x | x in xs :: x in ys
  }

  function WithoutLists(e: Entry): Entry {
    e.(producers := [], consumers := [], fileDependencies := [])
  }

  // operator==
  predicate EntryEquals(e: Entry, other: Entry) {
    && WithoutLists(e) == WithoutLists(other)
    && Covers(e.producers, other.producers)
    && Covers(e.consumers, other.consumers)
    && Covers(e.fileDependencies, other.fileDependencies)
  }

  // Engine::operator==
  predicate EntriesEqual(es: map<string, Entry>, others: map<string, Entry>) {
    && |es| == |others|
    && forall p | p in es :: p in others && EntryEquals(es[p], others[p])
  }

  // What equality should mean: the same keys, and the same rules up to the order of the lists.
  ghost predicate SameRules(e: Entry, other: Entry) {
    && e.commitRule == other.commitRule && e.fireRule == other.fireRule
    && e.permanent == other.permanent && e.excluded == other.excluded && e.inMemory == other.inMemory
    && e.isFile == other.isFile && e.childrenCount == other.childrenCount && e.autoCount == other.autoCount
    && e.closeCount == other.closeCount
    && multiset(e.producers) == multiset(other.producers)
    && multiset(e.consumers) == multiset(other.consumers)
    && multiset(e.fileDependencies) == multiset(other.fileDependencies)
  }

  ghost predicate SameMap(es: map<string, Entry>, others: map<string, Entry>) {
    && es.Keys == others.Keys
    && forall p | p in es :: SameRules(es[p], others[p])
  }

  ghost predicate ListsDistinct(e: Entry) {
    NoDuplicates(e.producers) && NoDuplicates(e.consumers) && NoDuplicates(e.fileDependencies)
  }

  ghost predicate RepetitionFree(es: map<string, Entry>) {
    forall p | p in es :: ListsDistinct(es[p])
  }

  // On a list without repetitions the one-sided check decides equality up to order.
  lemma {:induction false} CoversIsPermutation<T(!new)>(xs: seq<T>, ys: seq<T>)
    requires NoDuplicates(xs)
    ensures Covers(xs, ys) <==> multiset(xs) == multiset(ys)
  {
    if multiset(xs) == multiset(ys) {
      assert |xs| == |multiset(xs)| == |multiset(ys)| == |ys|;
      forall x | x in xs
        ensures x in ys
      {
        assert x in multiset(xs);
      }
    }
    if Covers(xs, ys) && xs != [] {
      var last := |xs| - 1;
      assert xs[last] in ys;
      var k :| 0 <= k < |ys| && ys[k] == xs[last];
      var rest := ys[..k] + ys[k + 1..];
      assert ys == ys[..k] + [ys[k]] + ys[k + 1..];
      forall x | x in xs[..last]
        ensures x in rest
      {
        var i :| 0 <= i < last && xs[i] == x;
        assert x in ys && x != ys[k];
      }
      CoversIsPermutation(xs[..last], rest);
      assert xs == xs[..last] + [xs[last]];
    }
  }

  lemma EntryEqualsIsSameRules(e: Entry, other: Entry)
    requires ListsDistinct(e)
    ensures EntryEquals(e, other) <==> SameRules(e, other)
  {
    CoversIsPermutation(e.producers, other.producers);
    CoversIsPermutation(e.consumers, other.consumers);
    CoversIsPermutation(e.fileDependencies, other.fileDependencies);
  }

  // Engine equality decides equality of the maps up to list order, whatever the right-hand engine holds.
  lemma EqualityDecidesSameMap(es: map<string, Entry>, others: map<string, Entry>)
    requires RepetitionFree(es)
    ensures EntriesEqual(es, others) <==> SameMap(es, others)
  {
    forall p | p in es && p in others
      ensures EntryEquals(es[p], others[p]) <==> SameRules(es[p], others[p])
    {
      EntryEqualsIsSameRules(es[p], others[p]);
    }
    if EntriesEqual(es, others) {
      SubsetOfSameSize(es.Keys, others.Keys);
    }
    if SameMap(es, others) {
      assert |es.Keys| == |others.Keys|;
    }
  }

  lemma SubsetOfSameSize<T>(a: set<T>, b: set<T>)
    requires a <= b && |a| >= |b|
    ensures a == b
  {
    assert |b - a| == |b| - |a|;
  }

  // Hence it is an equivalence on engines whose lists hold no repetitions.
  lemma EqualityIsEquivalence(a: map<string, Entry>, b: map<string, Entry>, c: map<string, Entry>)
    requires RepetitionFree(a) && RepetitionFree(b)
    ensures EntriesEqual(a, a)
    ensures EntriesEqual(a, b) <==> EntriesEqual(b, a)
    ensures EntriesEqual(a, b) && EntriesEqual(b, c) ==> EntriesEqual(a, c)
  {
    hide EntriesEqual, SameMap, ListsDistinct;
    EqualityDecidesSameMap(a, a);
    EqualityDecidesSameMap(a, b);
    EqualityDecidesSameMap(b, a);
    EqualityDecidesSameMap(b, c);
    EqualityDecidesSameMap(a, c);
    SameMapChained(a, b, a);
    SameMapChained(b, a, b);
    SameMapChained(a, b, c);
  }

  lemma SameMapChained(a: map<string, Entry>, b: map<string, Entry>, c: map<string, Entry>)
    ensures SameMap(a, a) && (SameMap(a, b) ==> SameMap(b, a))
    ensures SameMap(a, b) && SameMap(b, c) ==> SameMap(a, c)
  {
    hide SameRules;
    forall e
      ensures SameRules(e, e)
    {
      SameRulesChained(e, e, e);
    }
    forall e, f | SameRules(e, f)
      ensures SameRules(f, e)
    {
      SameRulesChained(e, f, e);
    }
    forall p | p in a && p in b && p in c && SameRules(a[p], b[p]) && SameRules(b[p], c[p])
      ensures SameRules(a[p], c[p])
    {
      SameRulesChained(a[p], b[p], c[p]);
    }
  }

  lemma SameRulesChained(e: Entry, f: Entry, g: Entry)
    ensures SameRules(e, e) && (SameRules(e, f) ==> SameRules(f, e))
    ensures SameRules(e, f) && SameRules(f, g) ==> SameRules(e, g)
  {
  }

  // With repetitions it is not symmetric: ["x", "x"] equals ["x", "y"], which does not equal it.
  lemma EqualityNotSymmetric(es: map<string, Entry>, others: map<string, Entry>)
    requires es == map["f" := DEFAULT_ENTRY.(producers := ["x", "x"])]
    requires others == map["f" := DEFAULT_ENTRY.(producers := ["x", "y"])]
    ensures EntriesEqual(es, others) && !EntriesEqual(others, es)
  {
    assert "y" in others["f"].producers && "y" !in es["f"].producers by {
      assert others["f"].producers[1] == "y";
    }
  }

  // ---- Exactly when equality means what it should ----

  function LongestLength(xs: seq<string>): (n: nat)
    ensures forall x | x in xs :: |x| <= n
  {
    if xs == [] then 0
    else
      var rest, last := LongestLength(xs[..|xs| - 1]), xs[|xs| - 1];
      assert xs == xs[..|xs| - 1] + [last];
      if |last| > rest then |last| else rest
  }

  function Stars(n: nat): (s: string)
    ensures |s| == n
  {
    seq(n, _ => '*')
  }

  // The list with each repetition replaced by a text of its own, longer than all those of the list.
  function Unrepeated(xs: seq<string>): (ys: seq<string>)
    ensures |ys| == |xs|
  {
    seq(|xs|, i requires 0 <= i < |xs| => if xs[i] in xs[..i] then Stars(LongestLength(xs) + 1 + i) else xs[i])
  }

  lemma {:induction false} FirstOccurrence(xs: seq<string>, i: nat) returns (k: nat)
    requires i < |xs|
    ensures k <= i && xs[k] == xs[i] && xs[k] !in xs[..k]
  {
    if xs[i] in xs[..i] {
      var j :| 0 <= j < i && xs[..i][j] == xs[i];
      k := FirstOccurrence(xs, j);
    } else {
      k := i;
    }
  }

  lemma UnrepeatedAt(xs: seq<string>, i: nat)
    requires i < |xs|
    ensures var y := Unrepeated(xs)[i];
      if xs[i] in xs[..i] then |y| == LongestLength(xs) + 1 + i && y !in xs else y == xs[i] && |y| <= LongestLength(xs)
  {
    hide LongestLength, Stars;
    var y, n := Unrepeated(xs)[i], LongestLength(xs);
    assert xs[i] in xs;
    assert y == if xs[i] in xs[..i] then Stars(n + 1 + i) else xs[i];
  }

  lemma UnrepeatedDistinct(xs: seq<string>)
    ensures NoDuplicates(Unrepeated(xs))
  {
    forall i, j | 0 <= i < j < |xs|
      ensures Unrepeated(xs)[i] != Unrepeated(xs)[j]
    {
      UnrepeatedAt(xs, i);
      UnrepeatedAt(xs, j);
      hide Unrepeated, LongestLength;
      assert xs[i] in xs && xs[i] == xs[..j][i];
    }
  }

  lemma UnrepeatedCovered(xs: seq<string>)
    ensures NoDuplicates(Unrepeated(xs)) && Covers(xs, Unrepeated(xs))
    ensures Covers(Unrepeated(xs), xs) <==> NoDuplicates(xs)
  {
    hide Unrepeated, LongestLength;
    UnrepeatedDistinct(xs);
    var ys := Unrepeated(xs);
    forall x | x in xs
      ensures x in ys
    {
      var i :| 0 <= i < |xs| && xs[i] == x;
      var k := FirstOccurrence(xs, i);
      UnrepeatedAt(xs, k);
      assert ys[k] == x;
    }
    if i, j :| 0 <= i < j < |xs| && xs[i] == xs[j] {
      UnrepeatedAt(xs, j);
      assert xs[..j][i] == xs[j] && ys[j] in ys;
    } else {
      forall i | 0 <= i < |xs|
        ensures ys[i] == xs[i]
      {
        UnrepeatedAt(xs, i);
      }
      assert ys == xs;
    }
  }

  function UnrepeatedEntry(e: Entry): Entry {
    e.(producers := Unrepeated(e.producers), consumers := Unrepeated(e.consumers),
       fileDependencies := Unrepeated(e.fileDependencies))
  }

  lemma UnrepeatedEntryEquals(e: Entry)
    ensures ListsDistinct(UnrepeatedEntry(e)) && EntryEquals(e, UnrepeatedEntry(e))
    ensures EntryEquals(UnrepeatedEntry(e), e) <==> ListsDistinct(e)
  {
    hide Unrepeated, Covers, NoDuplicates;
    UnrepeatedCovered(e.producers);
    UnrepeatedCovered(e.consumers);
    UnrepeatedCovered(e.fileDependencies);
  }

  // Every engine has a repetition-free one it is equal to, and which is equal to it exactly when it
  // holds no repetition itself.
  lemma RepetitionFreeTwin(es: map<string, Entry>) returns (twin: map<string, Entry>)
    ensures RepetitionFree(twin) && EntriesEqual(es, twin)
    ensures EntriesEqual(twin, es) <==> RepetitionFree(es)
  {
    hide UnrepeatedEntry, EntryEquals, ListsDistinct;
    twin := map p | p in es :: UnrepeatedEntry(es[p]);
    assert |twin.Keys| == |es.Keys| by {
      assert twin.Keys == es.Keys;
    }
    forall p | p in es
      ensures ListsDistinct(twin[p]) && EntryEquals(es[p], twin[p])
      ensures EntryEquals(twin[p], es[p]) <==> ListsDistinct(es[p])
    {
      UnrepeatedEntryEquals(es[p]);
    }
  }

  // The one-sided checks decide sameness of the maps, against every other engine, exactly for the
  // engines whose lists hold no repetitions.
  lemma EqualityDecidesExactly(es: map<string, Entry>)
    ensures (forall others :: EntriesEqual(es, others) <==> SameMap(es, others)) <==> RepetitionFree(es)
  {
    hide EntriesEqual, SameMap, ListsDistinct;
    if RepetitionFree(es) {
      forall others
        ensures EntriesEqual(es, others) <==> SameMap(es, others)
      {
        EqualityDecidesSameMap(es, others);
      }
    } else {
      var twin := RepetitionFreeTwin(es);
      if SameMap(es, twin) {
        SameMapChained(es, twin, es);
        EqualityDecidesSameMap(twin, es);
      }
      assert EntriesEqual(es, twin) && !SameMap(es, twin);
    }
  }

  // The same engines are the ones that compare symmetrically with every repetition-free engine.
  lemma EqualitySymmetricExactly(es: map<string, Entry>)
    ensures (forall others | RepetitionFree(others) :: EntriesEqual(es, others) <==> EntriesEqual(others, es))
       <==> RepetitionFree(es)
  {
    hide EntriesEqual, SameMap, ListsDistinct;
    if RepetitionFree(es) {
      forall others | RepetitionFree(others)
        ensures EntriesEqual(es, others) <==> EntriesEqual(others, es)
      {
        EqualityIsEquivalence(es, others, es);
      }
    } else {
      var twin := RepetitionFreeTwin(es);
      assert EntriesEqual(es, twin) && !EntriesEqual(twin, es);
    }
  }
}
