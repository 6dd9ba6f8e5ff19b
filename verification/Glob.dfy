// fnmatch(pattern, text, FNM_NOESCAPE): `*`, `?` and bracket sets, with `/` an ordinary character
// and backslash standing for itself (section 2.13 of POSIX.1-2017, Shell Command Language).
module Glob {
  import opened Text

  datatype Range = Range(low: char, high: char)

  datatype Token = Literal(c: char) | AnyOne | AnyRun | OneOf(negated: bool, ranges: seq<Range>)

  datatype Bracket = Bracket(ranges: seq<Range>, rest: string)

  // The items of a bracket set up to its closing `]`, which is an ordinary item when it comes first.
  function BracketItems(p: string, first: bool): (b: Option<Bracket>)
    ensures b.Some? ==> |b.value.rest| < |p|
  {
    if p == "" then None
    else if p[0] == ']' && !first then Some(Bracket([], p[1..]))
    else
      var ranged := |p| >= 3 && p[1] == '-' && p[2] != ']';
      match BracketItems(if ranged then p[3..] else p[1..], false)
      case None => None
      case Some(b) => Some(Bracket([Range(p[0], if ranged then p[2] else p[0])] + b.ranges, b.rest))
  }

  // The first token of a non-empty pattern and the pattern after it. A `[` that no `]` closes is literal.
  function NextToken(p: string): (r: (Token, string))
    requires p != ""
    ensures |r.1| < |p|
  {
    if p[0] == '*' then (AnyRun, p[1..])
    else if p[0] == '?' then (AnyOne, p[1..])
    else if p[0] == '[' then
      var negated := |p| >= 2 && (p[1] == '!' || p[1] == '^');
      match BracketItems(if negated then p[2..] else p[1..], true)
      case None => (Literal('['), p[1..])
      case Some(b) => (OneOf(negated, b.ranges), b.rest)
    else (Literal(p[0]), p[1..])
  }

  predicate InRanges(ranges: seq<Range>, c: char) {
    exists r | r in ranges :: r.low <= c <= r.high
  }

  predicate TakesOne(t: Token, c: char) {
    match t
    case Literal(d) => c == d
    case AnyOne => true
    case AnyRun => true
    case OneOf(negated, ranges) => negated != InRanges(ranges, c)
  }

  // The matcher: backtracks over how much each `*` takes.
  predicate Match(p: string, s: string)
    decreases |p| + |s|
  {
    if p == "" then s == ""
    else
      var (t, rest) := NextToken(p);
      if t.AnyRun? then Match(rest, s) || (s != "" && Match(p, s[1..]))
      else s != "" && TakesOne(t, s[0]) && Match(rest, s[1..])
  }

  // What a pattern means without a matcher: the text splits into one piece per token.
  function Tokens(p: string): seq<Token>
    decreases |p|
  {
    if p == "" then [] else [NextToken(p).0] + Tokens(NextToken(p).1)
  }

  predicate Accepts(t: Token, piece: string) {
    t.AnyRun? || (|piece| == 1 && TakesOne(t, piece[0]))
  }

  function Join(pieces: seq<string>): string {
    if pieces == [] then "" else pieces[0] + Join(pieces[1..])
  }

  ghost predicate SplitsAs(p: string, s: string, pieces: seq<string>) {
    && |pieces| == |Tokens(p)|
    && Join(pieces) == s
    && forall i | 0 <= i < |pieces| :: Accepts(Tokens(p)[i], pieces[i])
  }

  // The matcher accepts exactly the texts that split along the pattern's tokens.
  lemma MatchIffSplits(p: string, s: string)
    ensures Match(p, s) <==> exists pieces :: SplitsAs(p, s, pieces)
  {
    if Match(p, s) {
      var pieces := MatchSplits(p, s);
      assert SplitsAs(p, s, pieces);
    }
    forall pieces | SplitsAs(p, s, pieces)
      ensures Match(p, s)
    {
      SplitsMatch(p, s, pieces);
    }
  }

  lemma {:induction false} MatchSplits(p: string, s: string) returns (pieces: seq<string>)
    requires Match(p, s)
    ensures SplitsAs(p, s, pieces)
    decreases |p| + |s|
  {
    if p == "" {
      pieces := [];
    } else {
      var (t, rest) := NextToken(p);
      if t.AnyRun? && !Match(rest, s) {
        var tail := MatchSplits(p, s[1..]);
        pieces := [[s[0]] + tail[0]] + tail[1..];
        assert pieces[1..] == tail[1..];
        assert s == [s[0]] + s[1..];
      } else {
        var taken := if t.AnyRun? then "" else s[..1];
        var tail := MatchSplits(rest, s[|taken|..]);
        pieces := [taken] + tail;
        assert pieces[1..] == tail && s == taken + s[|taken|..];
      }
    }
  }

  lemma {:induction false} SplitsMatch(p: string, s: string, pieces: seq<string>)
    requires SplitsAs(p, s, pieces)
    ensures Match(p, s)
    decreases |p| + |s|
  {
    if p != "" {
      var (t, rest) := NextToken(p);
      assert s == pieces[0] + Join(pieces[1..]);
      if t.AnyRun? && pieces[0] != "" {
        var shorter := [pieces[0][1..]] + pieces[1..];
        assert shorter[1..] == pieces[1..];
        assert s[1..] == Join(shorter);
        SplitsMatch(p, s[1..], shorter);
      } else {
        assert Accepts(Tokens(p)[0], pieces[0]);
        assert s[|pieces[0]|..] == Join(pieces[1..]);
        forall i | 0 <= i < |pieces| - 1
          ensures Accepts(Tokens(rest)[i], pieces[1..][i])
        {
          assert Tokens(rest)[i] == Tokens(p)[i + 1];
        }
        SplitsMatch(rest, Join(pieces[1..]), pieces[1..]);
      }
    }
  }

  predicate GlobFree(p: string) {
    '*' !in p && '?' !in p && '[' !in p
  }

  // A pattern without glob characters matches itself and nothing else.
  lemma {:induction false} GlobFreeMatchesOnlyItself(p: string, s: string)
    requires GlobFree(p)
    ensures Match(p, s) <==> s == p
  {
    if p != "" {
      assert p == [p[0]] + p[1..];
      if s != "" {
        assert s == [s[0]] + s[1..];
        GlobFreeMatchesOnlyItself(p[1..], s[1..]);
      }
    }
  }

  // Characters that mean themselves inside a bracket set.
  predicate PlainSet(cs: string) {
    cs != "" && ']' !in cs && '-' !in cs && cs[0] != '!' && cs[0] != '^'
  }

  lemma {:induction false} PlainItems(cs: string, first: bool)
    requires ']' !in cs && '-' !in cs && (first ==> cs != "")
    ensures var b := BracketItems(cs + "]", first);
      b.Some? && b.value.rest == "" && forall c :: InRanges(b.value.ranges, c) <==> c in cs
  {
    var p := cs + "]";
    if cs == "" {
      assert p == "]" && p[1..] == "";
    } else {
      assert p[1..] == cs[1..] + "]" && p[0] == cs[0] && cs == [cs[0]] + cs[1..];
      assert cs[0] in cs && (|cs| > 1 ==> cs[1] in cs && p[1] == cs[1]);
      assert forall c | c in cs[1..] :: c in cs;
      PlainItems(cs[1..], false);
      var rest := BracketItems(p[1..], false).value;
      assert BracketItems(p, first) == Some(Bracket([Range(cs[0], cs[0])] + rest.ranges, ""));
      hide BracketItems, InRanges;
      forall c
        ensures InRanges([Range(cs[0], cs[0])] + rest.ranges, c) <==> c in cs
      {
        OneMoreItem(cs[0], rest.ranges, c);
      }
    }
  }

  lemma OneMoreItem(x: char, ranges: seq<Range>, c: char)
    ensures InRanges([Range(x, x)] + ranges, c) <==> c == x || InRanges(ranges, c)
  {
    assert Range(x, x) in [Range(x, x)] + ranges;
  }

  // A bracket set matches exactly the one-character texts among its characters, or, negated, the
  // others.
  lemma BracketMeaning(cs: string, negated: bool, s: string)
    requires PlainSet(cs)
    ensures Match((if negated then "[!" else "[") + cs + "]", s) <==> |s| == 1 && (s[0] in cs) != negated
  {
    var p := (if negated then "[!" else "[") + cs + "]";
    PlainItems(cs, true);
    hide BracketItems;
    assert (if negated then p[2..] else p[1..]) == cs + "]";
    assert !negated ==> p[1] == cs[0];
    var b := BracketItems(cs + "]", true).value;
    assert NextToken(p) == (OneOf(negated, b.ranges), "");
    if s != "" {
      assert Match("", s[1..]) <==> |s| == 1;
    }
  }

  // ---- Patterns that match themselves at most ----

  // Matches no non-empty text but p itself.
  ghost predicate Lone(p: string) {
    forall q | q != "" && Match(p, q) :: q == p
  }

  // Only a bracket set can take no character at all: one whose ranges are all empty or, negated,
  // cover every character.
  ghost predicate TakesNone(t: Token) {
    forall c :: !TakesOne(t, c)
  }

  lemma {:induction false} LiteralsMatchOnlyThemselves(p: string, s: string)
    requires forall t | t in Tokens(p) :: t.Literal?
    ensures Match(p, s) <==> s == p
  {
    if p != "" {
      var (t, rest) := NextToken(p);
      assert t in Tokens(p) && t == Literal(p[0]) && rest == p[1..];
      assert p == [p[0]] + p[1..];
      assert forall u | u in Tokens(rest) :: u in Tokens(p);
      if s != "" {
        assert s == [s[0]] + s[1..];
        LiteralsMatchOnlyThemselves(rest, s[1..]);
      }
    }
  }

  // A pattern has a token for each character, or fewer when it holds a bracket set.
  lemma {:induction false} TokenCount(p: string)
    ensures |Tokens(p)| <= |p|
    ensures (exists t | t in Tokens(p) :: t.OneOf?) ==> |Tokens(p)| < |p|
    decreases |p|
  {
    if p != "" {
      var (t, rest) := NextToken(p);
      assert |rest| < |p| && (t.OneOf? ==> |rest| < |p| - 1);
      hide NextToken;
      TokenCount(rest);
      assert Tokens(p) == [t] + Tokens(rest);
    }
  }

  // A matching text with one character for each token, x wherever the token takes any.
  lemma {:induction false} Sample(p: string, x: char) returns (s: string)
    requires forall t | t in Tokens(p) :: !TakesNone(t)
    ensures Match(p, s) && |s| == |Tokens(p)|
    ensures forall i | 0 <= i < |s| && (Tokens(p)[i].AnyOne? || Tokens(p)[i].AnyRun?) :: s[i] == x
    decreases |p|
  {
    if p == "" {
      s := "";
    } else {
      var (t, rest) := NextToken(p);
      assert Tokens(p) == [t] + Tokens(rest);
      assert t in Tokens(p) && forall u | u in Tokens(rest) :: u in Tokens(p);
      var tail := Sample(rest, x);
      var c := x;
      if t.Literal? {
        c := t.c;
      } else if t.OneOf? {
        c :| TakesOne(t, c);
      }
      s := [c] + tail;
      assert s[1..] == tail;
      hide NextToken;
      assert Match(p, tail) || !t.AnyRun?;
    }
  }

  // A pattern is alone exactly when it holds no operator, or a bracket set that takes nothing.
  lemma LoneTokens(p: string)
    ensures Lone(p) <==> (forall t | t in Tokens(p) :: t.Literal?) || (exists t | t in Tokens(p) :: TakesNone(t))
  {
    hide Match, Tokens, TakesOne;
    if forall t | t in Tokens(p) :: t.Literal? {
      forall q | Match(p, q)
        ensures q == p
      {
        LiteralsMatchOnlyThemselves(p, q);
      }
    } else if t :| t in Tokens(p) && TakesNone(t) {
      forall q
        ensures !Match(p, q)
      {
        NothingTaken(p, q, t);
      }
    } else {
      MatchesAnother(p);
    }
  }

  lemma NothingTaken(p: string, q: string, t: Token)
    requires t in Tokens(p) && TakesNone(t)
    ensures !Match(p, q)
  {
    hide Match, Tokens;
    assert !t.AnyRun? by {
      assert !TakesOne(t, 'a');
    }
    var i :| 0 <= i < |Tokens(p)| && Tokens(p)[i] == t;
    forall pieces
      ensures !SplitsAs(p, q, pieces)
    {
      if |pieces| == |Tokens(p)| {
        assert !Accepts(Tokens(p)[i], pieces[i]);
      }
    }
    MatchIffSplits(p, q);
  }

  lemma MatchesAnother(p: string)
    requires !(forall t | t in Tokens(p) :: t.Literal?) && forall t | t in Tokens(p) :: !TakesNone(t)
    ensures !Lone(p)
  {
    hide Match, Tokens, TakesNone;
    var t :| t in Tokens(p) && !t.Literal?;
    var i :| 0 <= i < |Tokens(p)| && Tokens(p)[i] == t;
    var a := Sample(p, 'a');
    var b := Sample(p, 'b');
    TokenCount(p);
    if t.OneOf? {
      assert |a| < |p|;
    } else {
      assert a[i] != b[i];
    }
    assert a != "" && b != "";
  }

  // p with each operator written as a bracket set: a pattern for p alone.
  function Escaped(p: string): (k: string)
    ensures k == "" <==> p == ""
  {
    if p == "" then ""
    else (if p[0] in ['*', '?', '['] then ['[', p[0], ']'] else [p[0]]) + Escaped(p[1..])
  }

  lemma EscapedToken(c: char, rest: string)
    requires c in ['*', '?', '[']
    ensures NextToken(['[', c, ']'] + rest) == (OneOf(false, [Range(c, c)]), rest)
  {
    var p := ['[', c, ']'] + rest;
    assert p[1..] == [c, ']'] + rest;
    var items := p[1..];
    assert items[1..] == [']'] + rest && items[1..][1..] == rest;
    assert BracketItems(items[1..], false) == Some(Bracket([], rest));
    assert [Range(c, c)] + [] == [Range(c, c)];
    assert BracketItems(items, true) == Some(Bracket([Range(c, c)], rest));
  }

  lemma {:induction false} EscapedMatchesOnly(p: string, s: string)
    ensures Match(Escaped(p), s) <==> s == p
  {
    if p != "" {
      var c, k := p[0], Escaped(p);
      var rest := Escaped(p[1..]);
      assert p == [c] + p[1..];
      if c in ['*', '?', '['] {
        EscapedToken(c, rest);
      } else {
        assert k == [c] + rest && k[1..] == rest;
      }
      var (t, after) := NextToken(k);
      assert after == rest && !t.AnyRun? && forall x :: TakesOne(t, x) <==> x == c;
      hide NextToken, TakesOne;
      if s != "" {
        assert s == [s[0]] + s[1..];
        EscapedMatchesOnly(p[1..], s[1..]);
      }
    }
  }

  // ---- What each operator means, on the text of the pattern ----

  // A star takes any run of characters, slashes included, and the rest of the pattern the rest.
  lemma {:induction false} StarMeaning(p: string, s: string)
    ensures Match("*" + p, s) <==> exists i | 0 <= i <= |s| :: Match(p, s[i..])
  {
    var k := "*" + p;
    assert k[1..] == p && NextToken(k) == (AnyRun, p);
    hide NextToken;
    assert s[0..] == s;
    if s == "" {
      assert Match(k, s) <==> Match(p, s);
      assert forall i | 0 <= i <= |s| :: s[i..] == s;
    } else {
      StarMeaning(p, s[1..]);
      assert Match(k, s) <==> Match(p, s[0..]) || Match(k, s[1..]);
      hide Match;
      forall i | 0 <= i < |s|
        ensures s[1..][i..] == s[i + 1..]
      {
      }
      assert forall i | 0 < i <= |s| :: s[1..][i - 1..] == s[i..];
    }
  }

  // A question mark takes exactly one, whatever it is.
  lemma QuestionMeaning(p: string, s: string)
    ensures Match("?" + p, s) <==> s != "" && Match(p, s[1..])
  {
    assert ("?" + p)[1..] == p && NextToken("?" + p) == (AnyOne, p);
  }

  // Any other character takes itself; so does an opening bracket that nothing closes.
  lemma LiteralMeaning(c: char, p: string, s: string)
    requires c !in ['*', '?', '['] || (c == '[' && ']' !in p)
    ensures Match([c] + p, s) <==> s != "" && s[0] == c && Match(p, s[1..])
  {
    var k := [c] + p;
    assert k[1..] == p;
    if c == '[' {
      Unclosed(p, true);
      if |k| >= 2 && (k[1] == '!' || k[1] == '^') {
        assert k[2..] == p[1..] && forall x | x in p[1..] :: x in p;
        Unclosed(p[1..], true);
      }
    }
    assert NextToken(k) == (Literal(c), p);
  }

  lemma {:induction false} Unclosed(p: string, first: bool)
    requires ']' !in p
    ensures BracketItems(p, first) == None
    decreases |p|
  {
    if p != "" {
      assert p[0] in p;
      Unclosed(p[1..], false);
      if |p| >= 3 {
        assert forall x | x in p[3..] :: x in p;
        Unclosed(p[3..], false);
      }
    }
  }

  // A range in a bracket set takes one character between its ends or, negated by either sign, one
  // outside them.
  lemma RangeMeaning(sign: string, x: char, y: char, p: string, s: string)
    requires sign in ["", "!", "^"] && x != '!' && x != '^' && y != ']'
    ensures Match("[" + sign + [x, '-', y, ']'] + p, s) <==>
      s != "" && (x <= s[0] <= y) != (sign != "") && Match(p, s[1..])
  {
    var negated := sign != "";
    var items := [x, '-', y, ']'] + p;
    var k := "[" + sign + [x, '-', y, ']'] + p;
    assert k == "[" + sign + items;
    assert negated ==> k[2..] == items && (k[1] == '!' || k[1] == '^');
    assert !negated ==> k[1..] == items && k[1] == x;
    assert items[3..] == [']'] + p && items[3..][1..] == p;
    assert BracketItems(items[3..], false) == Some(Bracket([], p));
    assert [Range(x, y)] + [] == [Range(x, y)];
    assert BracketItems(items, true) == Some(Bracket([Range(x, y)], p));
    hide BracketItems;
    assert NextToken(k) == (OneOf(negated, [Range(x, y)]), p);
    assert Range(x, y) in [Range(x, y)];
  }
}
