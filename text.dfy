/** String helpers used by the formatters, the query parsing and the
    identifier synthesis: decimal rendering (`n.toString()`), `padStart(2, "0")`,
    `split`/`join` on one separator, `trim` and `parseInt`. Each rendering
    function is paired with a parser that inverts it. */
module Text {
  import opened Util

  predicate IsDigit(c: char) { '0' <= c <= '9' }

  predicate AllDigits(s: string) { forall i :: 0 <= i < |s| ==> IsDigit(s[i]) }

  function DigitChar(d: nat): (c: char)
    requires d < 10
    ensures IsDigit(c) && c as int - '0' as int == d
  {
    (('0' as int) + d) as char
  }

  /** The number an all-digit string denotes ("" denotes 0). */
  function DigitsValue(s: string): int
  {
    if s == [] then 0
    else DigitsValue(s[..|s| - 1]) * 10 + (s[|s| - 1] as int - '0' as int)
  }

  /** `n.toString()` for a non-negative integer: no sign, no leading zero. */
  function NatToString(n: nat): (r: string)
    ensures |r| >= 1 && AllDigits(r)
    ensures DigitsValue(r) == n
    ensures r[0] == '0' ==> n == 0
    decreases n
  {
    if n < 10 then [DigitChar(n)]
    else
      var r := NatToString(n / 10) + [DigitChar(n % 10)];
      assert r[..|r| - 1] == NatToString(n / 10);
      r
  }

  /** Rendering is injective: distinct numbers give distinct strings. */
  lemma NatToStringInjective(a: nat, b: nat)
    requires NatToString(a) == NatToString(b)
    ensures a == b
  {
  }

  /** `i.toString()` for any integer. */
  function IntToString(i: int): (r: string)
    ensures |r| >= 1
    ensures i >= 0 ==> r == NatToString(i)
    ensures i < 0 ==> r == "-" + NatToString(-i)
  {
    if i < 0 then "-" + NatToString(-i) else NatToString(i)
  }

  /** JavaScript's `a % b` for a positive divisor: the remainder of division
      truncated toward zero, so it takes the sign of `a`. */
  function JsRem(a: int, b: int): (r: int)
    requires b > 0
    ensures a >= 0 ==> 0 <= r < b
    ensures a < 0 ==> -b < r <= 0
  {
    if a >= 0 then a % b else -((-a) % b)
  }

  /** JavaScript's `Math.trunc(a / b)` for a positive divisor. */
  function JsQuot(a: int, b: int): int
    requires b > 0
  {
    if a >= 0 then a / b else -((-a) / b)
  }

  /** The truncated quotient and remainder recompose the dividend. */
  lemma JsDivision(a: int, b: int)
    requires b > 0
    ensures a == b * JsQuot(a, b) + JsRem(a, b)
  {
    if a < 0 {
      var q, m := (-a) / b, (-a) % b;
      assert -a == b * q + m;
      assert b * (-q) == -(b * q);
    }
  }

  /** `s.padStart(2, "0")`. */
  function Pad2(s: string): (r: string)
    ensures |s| >= 2 ==> r == s
    ensures |s| < 2 ==> |r| == 2 && r[2 - |s|..] == s
    ensures forall i :: 0 <= i < |r| - |s| ==> r[i] == '0'
  {
    if |s| >= 2 then s else if |s| == 1 then "0" + s else "00"
  }

  /** A value below 100 rendered and padded is exactly two digits that
      denote the value. */
  lemma {:induction false} Pad2Digits(n: nat)
    requires n < 100
    ensures |Pad2(NatToString(n))| == 2 && AllDigits(Pad2(NatToString(n)))
    ensures DigitsValue(Pad2(NatToString(n))) == n
  {
    var s := NatToString(n);
    if n >= 10 {
      assert |NatToString(n / 10)| == 1;
    } else {
      var r := Pad2(s);
      assert r == "0" + s;
      assert r[..1] == "0";
      assert DigitsValue(r[..1]) == 0 by {
        assert r[..1][..0] == [];
      }
      assert s[..0] == [];
    }
  }

  // ---------------------------------------------------------------------
  // split / join on a single-character separator

  /** `s.split(c)` for a one-character separator c; "" splits to [""]. */
  function Split(s: string, c: char): (parts: seq<string>)
    ensures |parts| >= 1
    ensures forall k :: 0 <= k < |parts| ==> c !in parts[k]
    decreases |s|
  {
    var i := FirstIndex(s, c);
    if i == |s| then [s] else [s[..i]] + Split(s[i + 1..], c)
  }

  /** `parts.join(sep)`. */
  function Join(parts: seq<string>, sep: string): string {
    if parts == [] then ""
    else if |parts| == 1 then parts[0]
    else parts[0] + sep + Join(parts[1..], sep)
  }

  /** Joining the pieces of a split with the separator gives back the string. */
  lemma {:induction false} JoinSplit(s: string, c: char)
    ensures Join(Split(s, c), [c]) == s
    decreases |s|
  {
    var i := FirstIndex(s, c);
    if i < |s| {
      var rest := Split(s[i + 1..], c);
      JoinSplit(s[i + 1..], c);
      assert Split(s, c) == [s[..i]] + rest;
      assert ([s[..i]] + rest)[1..] == rest;
      assert Join([s[..i]] + rest, [c]) == s[..i] + [c] + Join(rest, [c]);
      assert s == s[..i] + [c] + s[i + 1..];
    }
  }

  /** Splitting a join of separator-free pieces gives back the pieces. */
  lemma {:induction false} SplitJoin(parts: seq<string>, c: char)
    requires |parts| >= 1
    requires forall k :: 0 <= k < |parts| ==> c !in parts[k]
    ensures Split(Join(parts, [c]), c) == parts
    decreases |parts|
  {
    var s := Join(parts, [c]);
    var p := parts[0];
    FirstIndexAfterPrefix(p, c, if |parts| == 1 then [] else [c] + Join(parts[1..], [c]));
    if |parts| == 1 {
      assert s == p;
    } else {
      SplitJoin(parts[1..], c);
      assert s == p + ([c] + Join(parts[1..], [c]));
      assert FirstIndex(s, c) == |p|;
      assert s[..|p|] == p;
      assert s[|p| + 1..] == Join(parts[1..], [c]);
      assert Split(s, c) == [p] + Split(Join(parts[1..], [c]), c);
      assert parts == [p] + parts[1..];
    }
  }

  lemma FirstIndexAfterPrefix(p: string, c: char, rest: string)
    requires c !in p
    requires rest == [] || rest[0] == c
    ensures FirstIndex(p + rest, c) == |p|
    decreases |p|
  {
    if p != [] {
      assert p[0] != c;
      assert c !in p[1..];
      assert (p + rest)[0] == p[0];
      assert (p + rest)[1..] == p[1..] + rest;
      FirstIndexAfterPrefix(p[1..], c, rest);
    }
  }

  // ---------------------------------------------------------------------
  // trim

  /** ECMAScript WhiteSpace and LineTerminator code points, the set that
      `String.prototype.trim` and `parseInt` skip. */
  predicate IsSpace(c: char) {
    c == '\t' || c == '\n' || c == '\U{B}' || c == '\U{C}' || c == '\r' ||
    c == ' ' || c == '\U{A0}' || c == '\U{1680}' ||
    ('\U{2000}' <= c <= '\U{200A}') || c == '\U{2028}' || c == '\U{2029}' ||
    c == '\U{202F}' || c == '\U{205F}' || c == '\U{3000}' || c == '\U{FEFF}'
  }

  function TrimStart(s: string): (r: string)
    ensures |r| <= |s| && r == s[|s| - |r|..]
    ensures forall i :: 0 <= i < |s| - |r| ==> IsSpace(s[i])
    ensures r == [] || !IsSpace(r[0])
  {
    if s != [] && IsSpace(s[0]) then TrimStart(s[1..]) else s
  }

  function TrimEnd(s: string): (r: string)
    ensures |r| <= |s| && r == s[..|r|]
    ensures forall i :: |r| <= i < |s| ==> IsSpace(s[i])
    ensures r == [] || !IsSpace(r[|r| - 1])
  {
    if s != [] && IsSpace(s[|s| - 1]) then TrimEnd(s[..|s| - 1]) else s
  }

  /** `s.trim()`: drops leading and trailing white space and nothing else. */
  function Trim(s: string): (r: string)
    ensures r == [] || (!IsSpace(r[0]) && !IsSpace(r[|r| - 1]))
    ensures var a := |s| - |TrimStart(s)|;
            a + |r| <= |s| && r == s[a..a + |r|] &&
            (forall i :: 0 <= i < a ==> IsSpace(s[i])) &&
            (forall i :: a + |r| <= i < |s| ==> IsSpace(s[i]))
  {
    TrimEnd(TrimStart(s))
  }

  lemma TrimIdempotent(s: string)
    ensures Trim(Trim(s)) == Trim(s)
  {
    var r := Trim(s);
    assert TrimStart(r) == r;
    assert TrimEnd(r) == r;
  }

  // ---------------------------------------------------------------------
  // parseInt (decimal)

  function DigitPrefixLength(s: string): (n: nat)
    ensures n <= |s| && AllDigits(s[..n])
    ensures n < |s| ==> !IsDigit(s[n])
  {
    if s != [] && IsDigit(s[0]) then
      var n := 1 + DigitPrefixLength(s[1..]);
      assert s[..n] == [s[0]] + s[1..][..n - 1];
      n
    else 0
  }

  /** `parseInt(s)` in base 10: leading white space, an optional sign, then
      the longest run of digits; None stands for NaN (no digit found). */
  function ParseInt(s: string): (r: Option<int>) {
    ParseSigned(TrimStart(s))
  }

  /** The sign and the digits after the leading white space. */
  function ParseSigned(t: string): (r: Option<int>) {
    if t != [] && t[0] == '-' then
      match ParseDigits(t[1..])
      case None => None
      case Some(v) => Some(-v)
    else if t != [] && t[0] == '+' then ParseDigits(t[1..])
    else ParseDigits(t)
  }

  /** The value of the longest leading run of digits, None when there is
      none. */
  function ParseDigits(body: string): Option<int> {
    var n := DigitPrefixLength(body);
    if n == 0 then None else Some(DigitsValue(body[..n]) as int)
  }

  /** `parseInt(String(i)) === i` for every integer i. */
  lemma ParseIntRoundTrip(i: int)
    ensures ParseInt(IntToString(i)) == Some(i)
  {
    if i < 0 {
      ParseDigitsAll(NatToString(-i));
      ParseIntSigned(NatToString(-i), -i);
    } else {
      ParseIntUnsigned(NatToString(i));
    }
  }

  /** A run of digits is read as its value. */
  lemma ParseDigitsAll(d: string)
    requires |d| >= 1 && AllDigits(d)
    ensures ParseDigits(d) == Some(DigitsValue(d) as int)
  {
    DigitPrefixAll(d);
    assert d[..|d|] == d;
  }

  /** A string that starts with neither white space nor a sign is read
      digits first. */
  lemma TrimStartKeeps(t: string)
    requires t != [] && !IsSpace(t[0])
    ensures TrimStart(t) == t
  {
  }

  lemma ParseIntUnsigned(d: string)
    requires |d| >= 1 && AllDigits(d)
    ensures ParseInt(d) == Some(DigitsValue(d) as int)
  {
    assert IsDigit(d[0]);
    TrimStartKeeps(d);
    assert d[0] != '-' && d[0] != '+';
    ParseDigitsAll(d);
  }

  lemma ParseIntSigned(d: string, v: int)
    requires ParseDigits(d) == Some(v)
    ensures ParseInt("-" + d) == Some(-v)
  {
    var t := "-" + d;
    assert t[0] == '-' && t[1..] == d;
    TrimStartKeeps(t);
    NegativeSign(t, v);
  }

  lemma NegativeSign(t: string, v: int)
    requires t != [] && t[0] == '-' && ParseDigits(t[1..]) == Some(v)
    ensures ParseSigned(t) == Some(-v)
  {
  }

  lemma DigitPrefixAll(s: string)
    requires AllDigits(s)
    ensures DigitPrefixLength(s) == |s|
  {
    if s != [] {
      DigitPrefixAll(s[1..]);
    }
  }

  // ---------------------------------------------------------------------
  // Clock strings "m:ss" and "h:mm:ss"

  /** A clock field after the first: exactly two digits, below 60. */
  predicate SexagesimalField(f: string) {
    |f| == 2 && AllDigits(f) && DigitsValue(f) < 60
  }

  predicate LeadingField(f: string) {
    |f| >= 1 && AllDigits(f)
  }

  /** The text both session clocks show when there is nothing to time. */
  const IdleClock: string := "0:00"

  /** Total seconds denoted by a clock string "m:ss" or "h:mm:ss" whose
      fields are decimal digits; None for anything else. This is the reading
      a user gives the formatters' output, used here as their inverse. */
  function ClockSeconds(s: string): Option<int> {
    ClockFields(Split(s, ':'))
  }

  function ClockFields(f: seq<string>): Option<int> {
    if |f| == 2 && LeadingField(f[0]) && SexagesimalField(f[1]) then
      Some(DigitsValue(f[0]) * 60 + DigitsValue(f[1]))
    else if |f| == 3 && LeadingField(f[0]) && SexagesimalField(f[1]) && SexagesimalField(f[2]) then
      Some(DigitsValue(f[0]) * 3600 + DigitsValue(f[1]) * 60 + DigitsValue(f[2]))
    else None
  }

  /** Reading back "m:ss" as built by the formatters. */
  lemma {:induction false} ClockSecondsMinutes(m: nat, sec: nat)
    requires sec < 60
    ensures ClockSeconds(NatToString(m) + ":" + Pad2(NatToString(sec))) == Some(m * 60 + sec)
  {
    var a, b := NatToString(m), Pad2(NatToString(sec));
    Pad2Digits(sec);
    SplitTwo(a, b);
    TwoFieldsValue(a, b);
  }

  /** Reading back "h:mm:ss" as built by the header clock. */
  lemma {:induction false} ClockSecondsHours(h: nat, m: nat, sec: nat)
    requires m < 60 && sec < 60
    ensures ClockSeconds(NatToString(h) + ":" + Pad2(NatToString(m)) + ":" + Pad2(NatToString(sec)))
            == Some(h * 3600 + m * 60 + sec)
  {
    var a, b, c := NatToString(h), Pad2(NatToString(m)), Pad2(NatToString(sec));
    Pad2Digits(m);
    Pad2Digits(sec);
    SplitThree(a, b, c);
    ThreeFieldsValue(a, b, c);
  }

  lemma SplitTwo(a: string, b: string)
    requires AllDigits(a) && AllDigits(b)
    ensures Split(a + ":" + b, ':') == [a, b]
  {
    NoColonInDigits(a);
    NoColonInDigits(b);
    SplitCons(a, b, ':');
    SplitSingle(b, ':');
  }

  lemma SplitThree(a: string, b: string, c: string)
    requires AllDigits(a) && AllDigits(b) && AllDigits(c)
    ensures Split(a + ":" + b + ":" + c, ':') == [a, b, c]
  {
    NoColonInDigits(a);
    NoColonInDigits(b);
    NoColonInDigits(c);
    assert a + ":" + b + ":" + c == a + ":" + (b + ":" + c);
    SplitCons(a, b + ":" + c, ':');
    SplitCons(b, c, ':');
    SplitSingle(c, ':');
  }

  /** Splitting at the first separator. */
  lemma SplitCons(p: string, rest: string, c: char)
    requires c !in p
    ensures Split(p + [c] + rest, c) == [p] + Split(rest, c)
  {
    var s := p + [c] + rest;
    FirstIndexAfterPrefix(p, c, [c] + rest);
    assert s == p + ([c] + rest);
    assert s[..|p|] == p;
    assert s[|p| + 1..] == rest;
  }

  lemma SplitSingle(p: string, c: char)
    requires c !in p
    ensures Split(p, c) == [p]
  {
    FirstIndexAfterPrefix(p, c, []);
    assert p + [] == p;
  }

  lemma TwoFieldsValue(a: string, b: string)
    requires LeadingField(a) && SexagesimalField(b)
    ensures ClockFields([a, b]) == Some(DigitsValue(a) * 60 + DigitsValue(b))
  {
  }

  lemma ThreeFieldsValue(a: string, b: string, c: string)
    requires LeadingField(a) && SexagesimalField(b) && SexagesimalField(c)
    ensures ClockFields([a, b, c]) == Some(DigitsValue(a) * 3600 + DigitsValue(b) * 60 + DigitsValue(c))
  {
  }

  lemma NoColonInDigits(s: string)
    requires AllDigits(s)
    ensures ':' !in s
  {
    assert forall i :: 0 <= i < |s| ==> s[i] != ':';
  }
}
