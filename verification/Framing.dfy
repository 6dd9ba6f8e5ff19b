// The text of the multicast messages: how they are written into the datagram and read back. A char
// stands for a byte.
module Framing {
  import opened Text

  const MESSAGE_SIZE: nat := 8194    // 2 + PATH_MAX + PATH_MAX
  const CAPACITY: nat := MESSAGE_SIZE - 3    // the text that fits beside command, space and terminator
  const NUL := '\0'

  datatype Command = SET | GET

  function CommandChar(c: Command): char {
    if c.SET? then '!' else '?'
  }

  // c_str
  function CString(s: string): (r: string)
    ensures r <= s && NUL !in r
  {
    Before(s, NUL)
  }

  function Clipped(s: string): string {
    if |s| <= CAPACITY then s else s[..CAPACITY]
  }

  // snprintf "%c %s" into the buffer, of which sendto ships everything before the terminator. The
  // receiver's zeroed buffer is as long, so it reads the same text.
  function Frame(c: Command, text: string): (m: string)
    ensures |m| >= 2 && m[0] == CommandChar(c) && |m| < MESSAGE_SIZE
  {
    [CommandChar(c), ' '] + Clipped(CString(text))
  }

  // ---- Commit messages ----

  // incoming_message.substr(2)
  function CommitPath(m: string): string
    requires |m| >= 2
  {
    m[2..]
  }

  // The sent path is read back exactly when it holds no NUL and fits the buffer.
  lemma CommitFraming(c: Command, path: string)
    ensures CommitPath(Frame(c, path)) == path <==> NUL !in path && |path| <= CAPACITY
  {
    BeforeWhole(path, NUL);
    assert CommitPath(Frame(c, path)) == Clipped(CString(path));
  }

  // A message is the command character, a space and the text, as far as 8191 bytes of it and up to
  // its first NUL.
  lemma FrameText(c: Command, text: string)
    requires NUL !in text
    ensures Frame(c, text) == (if c == SET then "! " else "? ") + (if |text| <= 8191 then text else text[..8191])
  {
    hide Before;
    BeforeWhole(text, NUL);
  }

  lemma FrameCut(c: Command, text: string, rest: string)
    requires NUL !in text
    ensures Frame(c, text + ([NUL] + rest)) == Frame(c, text)
  {
    hide Before;
    BeforeWhole(text, NUL);
    BeforeSeparator(text, NUL, [NUL] + rest);
  }

  // ---- The tokeniser of home-node messages ----

  function Words(s: string): seq<string>
    decreases |s|
  {
    if s == "" then []
    else if s[0] == ' ' then Words(s[1..])
    else [Before(s, ' ')] + Words(s[|Before(s, ' ')|..])
  }

  method Find(s: string, start: nat) returns (end: nat, found: bool)
    requires start <= |s|
    ensures found ==> start <= end < |s| && s[end] == ' ' && ' ' !in s[start..end]
    ensures !found ==> ' ' !in s[start..]
  {
    end := start;
    while end < |s|
      invariant start <= end <= |s| && ' ' !in s[start..end]
    {
      if s[end] == ' ' {
        return end, true;
      }
      assert s[start..end + 1] == s[start..end] + [s[end]];
      end := end + 1;
    }
    assert s[start..end] == s[start..];
    found := false;
  }

  method Tokenise(s: string) returns (tokens: seq<string>)
    ensures tokens == Words(s)
  {
    hide Words;
    tokens := [];
    var start: nat := 0;
    var end, found := Find(s, 0);
    assert s[0..] == s;
    while found
      invariant start <= |s| && (found ==> start <= end < |s| && s[end] == ' ' && ' ' !in s[start..end])
      invariant !found ==> ' ' !in s[start..]
      invariant tokens + Words(s[start..]) == Words(s)
      decreases |s| - start + if found then 1 else 0
    {
      WordsFrom(s, start, end);
      if end > start {
        tokens := tokens + [s[start..end]];
      }
      start := end + 1;
      end, found := Find(s, start);
    }
    LastWord(s[start..]);
    if start < |s| {
      tokens := tokens + [s[start..]];
    }
  }

  lemma WordsFrom(s: string, start: nat, end: nat)
    requires start <= end < |s| && s[end] == ' ' && ' ' !in s[start..end]
    ensures Words(s[start..]) == (if end > start then [s[start..end]] else []) + Words(s[end + 1..])
  {
    var t := s[start..];
    assert t == s[start..end] + s[end..];
    assert s[end..][1..] == s[end + 1..];
    if end > start {
      BeforeSeparator(s[start..end], ' ', s[end..]);
      assert t[0] == s[start..end][0] && t[end - start..] == s[end..];
    }
  }

  lemma LastWord(s: string)
    requires ' ' !in s
    ensures Words(s) == if s == "" then [] else [s]
  {
    if s != "" {
      BeforeSeparator(s, ' ', "");
      assert s + "" == s && s[0] in s && s[|s|..] == "";
    }
  }

  function WithoutSpaces(s: string): string {
    if s == "" then "" else (if s[0] == ' ' then "" else [s[0]]) + WithoutSpaces(s[1..])
  }

  function Concat(words: seq<string>): string {
    if words == [] then "" else words[0] + Concat(words[1..])
  }

  // Tokens are non-empty, hold no space, and together are the text without its spaces.
  lemma {:induction false} WordsOfText(s: string)
    ensures forall w | w in Words(s) :: w != "" && forall c | c in w :: c != ' ' && c in s
    ensures Concat(Words(s)) == WithoutSpaces(s)
    decreases |s|
  {
    if s != "" {
      if s[0] == ' ' {
        WordsOfText(s[1..]);
      } else {
        var w := Before(s, ' ');
        WordsOfText(s[|w|..]);
        WithoutSpacesConcat(w, s[|w|..]);
        WithoutSpacesFixpoint(w);
        assert s == w + s[|w|..];
        assert Words(s)[1..] == Words(s[|w|..]);
      }
    }
  }

  lemma {:induction false} WithoutSpacesConcat(a: string, b: string)
    ensures WithoutSpaces(a + b) == WithoutSpaces(a) + WithoutSpaces(b)
  {
    if a == "" {
      assert a + b == b;
    } else {
      assert (a + b)[1..] == a[1..] + b;
      WithoutSpacesConcat(a[1..], b);
    }
  }

  lemma {:induction false} WithoutSpacesFixpoint(s: string)
    requires ' ' !in s
    ensures WithoutSpaces(s) == s
  {
    if s != "" {
      assert s == [s[0]] + s[1..];
      WithoutSpacesFixpoint(s[1..]);
    }
  }

  function Spaced(words: seq<string>): string {
    if words == [] then "" else if |words| == 1 then words[0] else words[0] + " " + Spaced(words[1..])
  }

  // Any list of non-empty space-free words, written with single spaces, comes back.
  lemma {:induction false} WordsOfSpaced(words: seq<string>)
    requires forall w | w in words :: w != "" && ' ' !in w
    ensures Words(Spaced(words)) == words
  {
    if |words| == 1 {
      LastWord(words[0]);
    } else if words != [] {
      assert words[0] in words && forall w | w in words[1..] :: w in words;
      WordsOfSpaced(words[1..]);
      SplitFirst(words[0], Spaced(words[1..]));
    }
  }

  lemma SplitFirst(first: string, rest: string)
    requires first != "" && ' ' !in first
    ensures Words(first + " " + rest) == [first] + Words(rest)
  {
    hide Words;
    var s := first + " " + rest;
    assert s[0..|first|] == first;
    WordsFrom(s, 0, |first|);
    assert s[0..] == s && s[|first| + 1..] == rest;
  }

  // ---- Home-node messages ----

  // Broken stands for a message with too few tokens, on which the listener reads past its token list.
  datatype Incoming = Announce(path: string, host: string) | Query(path: string) | Broken

  function Read(m: string): Incoming {
    var tokens := Words(m);
    WordsOfText(m);
    if |tokens| < 2 then Broken
    else
      assert tokens[0] in tokens;
      if tokens[0][0] == '!' then (if |tokens| < 3 then Broken else Announce(tokens[1], tokens[2]))
      else Query(tokens[1])
  }

  predicate Plain(s: string) {
    s != "" && ' ' !in s && NUL !in s
  }

  lemma FrameWords(c: Command, text: string)
    ensures var t := Clipped(CString(text));
      Words(Frame(c, text)) == [[CommandChar(c)]] + Words(t)
  {
    var t := Clipped(CString(text));
    var m := Frame(c, text);
    WordsFrom(m, 0, 1);
    assert m[0..] == m && m[0..1] == [CommandChar(c)] && m[2..] == t;
  }

  lemma {:induction false} WithoutSpacesShorter(s: string)
    ensures |WithoutSpaces(s)| <= |s|
    ensures s != "" && s[|s| - 1] != ' ' ==> WithoutSpaces(s) != ""
  {
    if s != "" {
      WithoutSpacesShorter(s[1..]);
    }
  }

  lemma PlainToken(text: string, w: string)
    requires w in Words(Clipped(CString(text)))
    ensures Plain(w)
  {
    var t := Clipped(CString(text));
    WordsOfText(t);
    assert forall x | x in t :: x in CString(text);
  }

  // A query is read back exactly when its path is plain and fits.
  lemma QueryFraming(path: string)
    ensures Read(Frame(GET, path)) == Query(path) <==> Plain(path) && |path| <= CAPACITY
  {
    BeforeWhole(path, NUL);
    FrameWords(GET, path);
    var t := Clipped(CString(path));
    if Plain(path) && |path| <= CAPACITY {
      LastWord(path);
    }
    if Read(Frame(GET, path)) == Query(path) {
      assert Words(t)[0] == path;
      PlainToken(path, path);
      WordsOfText(t);
      WithoutSpacesShorter(t);
      assert |path| <= |Concat(Words(t))|;
    }
  }

  // So is an announcement, exactly when path and host are plain and fit together.
  lemma AnnounceFraming(path: string, host: string)
    ensures Read(Frame(SET, path + " " + host)) == Announce(path, host) <==>
      Plain(path) && Plain(host) && |path| + 1 + |host| <= CAPACITY
  {
    var text := path + " " + host;
    BeforeWhole(text, NUL);
    FrameWords(SET, text);
    var t := Clipped(CString(text));
    if Plain(path) && Plain(host) && |path| + 1 + |host| <= CAPACITY {
      WordsOfSpaced([path, host]);
      assert text == Spaced([path, host]);
    }
    if Read(Frame(SET, text)) == Announce(path, host) {
      var words := Words(t);
      assert words[0] == path && words[1] == host;
      PlainToken(text, path);
      PlainToken(text, host);
      WordsOfText(t);
      assert Concat(words) == path + (host + Concat(words[1..][1..]));
      if |text| > CAPACITY {
        ClippedHost(path, host);
      }
    }
  }

  // Clipping the text loses part of the host.
  lemma ClippedHost(path: string, host: string)
    requires ' ' !in path && ' ' !in host && host != "" && |path| + 1 + |host| > CAPACITY
    ensures |WithoutSpaces((path + " " + host)[..CAPACITY])| < |path| + |host|
  {
    var text := path + " " + host;
    WithoutSpacesConcat(path + " ", host);
    WithoutSpacesConcat(path, " ");
    WithoutSpacesFixpoint(path);
    WithoutSpacesFixpoint(host);
    assert WithoutSpaces(" ") == "";
    assert text == text[..CAPACITY] + text[CAPACITY..];
    WithoutSpacesConcat(text[..CAPACITY], text[CAPACITY..]);
    assert text[CAPACITY..][|text| - CAPACITY - 1] == host[|host| - 1] && host[|host| - 1] in host;
    WithoutSpacesShorter(text[CAPACITY..]);
  }
}
