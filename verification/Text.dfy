// Text helpers shared by the model: options, decimal text as written by std::to_string and read
// by std::stoi, and the removal of white space from application names.
module Text {

  datatype Option<+T> = None | Some(value: T)

  function GetOr<T>(o: Option<T>, default: T): T {
    if o.Some? then o.value else default
  }

  predicate IsDigit(c: char) {
    '0' <= c <= '9'
  }

  predicate AllDigits(s: string) {
    forall c | c in s :: IsDigit(c)
  }

  function DigitChar(d: nat): (c: char)
    requires d < 10
    ensures IsDigit(c) && DigitValue(c) == d
  {
    "0123456789"[d]
  }

  function DigitValue(c: char): nat
    requires IsDigit(c)
  {
    c as int - '0' as int
  }

  function NatText(n: nat): (s: string)
    ensures s != "" && AllDigits(s)
  {
    if n < 10 then [DigitChar(n)] else NatText(n / 10) + [DigitChar(n % 10)]
  }

  function DigitsValue(s: string): nat
    requires AllDigits(s)
  {
    if s == "" then 0 else 10 * DigitsValue(s[..|s| - 1]) + DigitValue(s[|s| - 1])
  }

  lemma {:induction false} NatTextValue(n: nat)
    ensures DigitsValue(NatText(n)) == n
  {
    if n < 10 {
      assert NatText(n)[..0] == "";
    } else {
      NatTextValue(n / 10);
      assert NatText(n)[..|NatText(n)| - 1] == NatText(n / 10);
    }
  }

  // std::to_string
  function IntText(n: int): string {
    if n < 0 then "-" + NatText(-n) else NatText(n)
  }

  const INT_MAX: int := 0x7FFF_FFFF

  predicate FitsInt(n: int) {
    -INT_MAX - 1 <= n <= INT_MAX
  }

  // The leading run of digits.
  function DigitRun(s: string): (r: string)
    ensures AllDigits(r)
  {
    if s != "" && IsDigit(s[0]) then [s[0]] + DigitRun(s[1..]) else ""
  }

  // isspace in the C locale.
  predicate IsSpace(c: char) {
    c in [' ', '\t', '\n', '\U{0B}', '\U{0C}', '\r']
  }

  function SkipSpaces(s: string): string {
    if s != "" && IsSpace(s[0]) then SkipSpaces(s[1..]) else s
  }

  function SignedValue(s: string): Option<int> {
    var negative := s != "" && s[0] == '-';
    var digits := DigitRun(if s != "" && (s[0] == '-' || s[0] == '+') then s[1..] else s);
    var magnitude: int := DigitsValue(digits);
    var n := if negative then -magnitude else magnitude;
    if digits != "" && FitsInt(n) then Some(n) else None
  }

  // std::stoi: white space, an optional sign, then digits; None where it throws.
  function Stoi(s: string): Option<int> {
    SignedValue(SkipSpaces(s))
  }

  // Decimal text reads back as the number it was made from exactly when that number fits an int.
  lemma StoiOfIntText(n: int)
    ensures Stoi(IntText(n)) == if FitsInt(n) then Some(n) else None
  {
    hide NatText, DigitsValue, Stoi;
    var m := if n < 0 then -n else n;
    NatTextValue(m);
    StoiReads("", n < 0, NatText(m), "");
    assert "" + (if n < 0 then "-" else "") + NatText(m) + "" == IntText(n);
  }

  // The number is what the leading digits say, whatever white space, sign or zeros come before them
  // and whatever follows.
  lemma {:induction false} StoiReads(spaces: string, negative: bool, digits: string, rest: string)
    requires (forall c | c in spaces :: IsSpace(c)) && digits != "" && AllDigits(digits)
    requires rest == "" || !IsDigit(rest[0])
    ensures var v: int := DigitsValue(digits);
      var n := if negative then -v else v;
      Stoi(spaces + (if negative then "-" else "") + digits + rest) == if FitsInt(n) then Some(n) else None
  {
    hide DigitsValue, DigitRun;
    var body := (if negative then "-" else "") + digits + rest;
    assert spaces + (if negative then "-" else "") + digits + rest == spaces + body;
    assert digits[0] in digits && body[0] == if negative then '-' else digits[0];
    SpacesSkipped(spaces, body);
    DigitRunOf(digits, rest);
    assert (if negative then body[1..] else body) == digits + rest;
  }

  lemma {:induction false} SpacesSkipped(spaces: string, body: string)
    requires (forall c | c in spaces :: IsSpace(c)) && body != "" && !IsSpace(body[0])
    ensures SkipSpaces(spaces + body) == body
  {
    if spaces == "" {
      assert spaces + body == body;
    } else {
      assert (spaces + body)[1..] == spaces[1..] + body && spaces[0] in spaces;
      SpacesSkipped(spaces[1..], body);
    }
  }

  lemma {:induction false} DigitRunOf(digits: string, rest: string)
    requires AllDigits(digits) && (rest == "" || !IsDigit(rest[0]))
    ensures DigitRun(digits + rest) == digits
  {
    if digits == "" {
      assert digits + rest == rest;
    } else {
      assert (digits + rest)[1..] == digits[1..] + rest && digits[0] in digits;
      DigitRunOf(digits[1..], rest);
    }
  }

  // What remains of an application name once every white-space character is erased.
  function Strip(s: string): (r: string)
    ensures forall c | c in r :: c in s && !IsSpace(c)
  {
    if s == "" then "" else (if IsSpace(s[0]) then "" else [s[0]]) + Strip(s[1..])
  }

  predicate SpaceFree(s: string) {
    forall c | c in s :: !IsSpace(c)
  }

  lemma {:induction false} StripFixpoint(s: string)
    ensures Strip(s) == s <==> SpaceFree(s)
    ensures Strip(Strip(s)) == Strip(s)
  {
    if SpaceFree(s) {
      StripOfSpaceFree(s);
    }
    StripOfSpaceFree(Strip(s));
  }

  lemma {:induction false} StripOfSpaceFree(s: string)
    requires SpaceFree(s)
    ensures Strip(s) == s
  {
    if s != "" {
      StripOfSpaceFree(s[1..]);
    }
  }

  // Each character that is no white space survives, in order.
  lemma {:induction false} StripConcat(a: string, b: string)
    ensures Strip(a + b) == Strip(a) + Strip(b)
  {
    if a == "" {
      assert a + b == b;
    } else {
      assert (a + b)[1..] == a[1..] + b;
      StripConcat(a[1..], b);
    }
  }

  lemma StripOne(c: char)
    ensures Strip([c]) == if c in [' ', '\t', '\n', '\U{0B}', '\U{0C}', '\r'] then "" else [c]
  {
    assert [c][1..] == "" && Strip("") == "";
  }

  // What precedes the first c, or the whole text when there is none.
  function Before(s: string, c: char): (r: string)
    ensures r <= s && c !in r
    ensures |r| < |s| ==> s[|r|] == c
  {
    if s == "" || s[0] == c then "" else [s[0]] + Before(s[1..], c)
  }

  lemma {:induction false} BeforeSeparator(prefix: string, c: char, rest: string)
    requires c !in prefix && (rest == "" || rest[0] == c)
    ensures Before(prefix + rest, c) == prefix
  {
    if prefix != "" {
      assert (prefix + rest)[1..] == prefix[1..] + rest && prefix[0] in prefix;
      BeforeSeparator(prefix[1..], c, rest);
    }
  }

  lemma BeforeWhole(s: string, c: char)
    ensures Before(s, c) == s <==> c !in s
  {
    if c !in s {
      BeforeSeparator(s, c, "");
      assert s + "" == s;
    }
  }
}
