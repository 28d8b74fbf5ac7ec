/** The values an artifact is made of, decimal texts, and the string literals JSON.stringify prints. */
module Json {
  import opened Common

  /**
   * A JavaScript value an artifact may hold. A finite number is the text JSON.stringify prints for it (two numbers with
   * one text are one number, up to the sign of zero); an object lists its own members in insertion order.
   */
  datatype Value =
    | Undefined
    | Null
    | Bool(b: bool)
    | Num(text: string)
    | NaN
    | Infinite(negative: bool)
    | BigInt(n: int)
    | Str(s: string)
    | Arr(items: seq<Value>)
    | Obj(fields: seq<Pair<Value>>)

  /** A character of a number or of `null`, `true`, `false`; never a delimiter, a quote or a backslash. */
  predicate TokenChar(c: char)
  {
    'a' <= c <= 'z' || '0' <= c <= '9' || c == '+' || c == '-' || c == '.'
  }

  predicate NumberChar(c: char)
  {
    '0' <= c <= '9' || c == '+' || c == '-' || c == '.' || c == 'e'
  }

  ghost predicate NumberText(t: string)
  {
    t != [] && forall i :: 0 <= i < |t| ==> NumberChar(t[i])
  }

  /** What any JavaScript value satisfies: the members of an object have distinct keys, a number prints as a number. */
  ghost predicate WellFormed(v: Value)
  {
    match v
    case Num(t) => NumberText(t)
    case Arr(items) => forall i :: 0 <= i < |items| ==> WellFormed(items[i])
    case Obj(fields) => DistinctKeys(fields) && forall i :: 0 <= i < |fields| ==> WellFormed(fields[i].val)
    case _ => true
  }

  /** `value[key]`: undefined for an absent member and for anything that is not an object. */
  function Member(v: Value, key: string): (r: Value)
  {
    if v.Obj? then
      match Lookup(v.fields, key)
      case Some(x) => x
      case None => Undefined
    else Undefined
  }

  // ----- decimal texts

  function Digit(d: int): (c: char)
    requires 0 <= d < 10
    ensures '0' <= c <= '9' && c as int == '0' as int + d
  {
    '0' + d as char
  }

  function NatText(n: nat): (t: string)
    ensures t != [] && forall i :: 0 <= i < |t| ==> '0' <= t[i] <= '9'
  {
    if n < 10 then [Digit(n)] else NatText(n / 10) + [Digit(n % 10)]
  }

  function IntText(n: int): (t: string)
    ensures NumberText(t)
  {
    if n < 0 then "-" + NatText(-n) else NatText(n)
  }

  /** The number a run of digits denotes. */
  function NatOf(t: string): (n: nat)
    requires forall i :: 0 <= i < |t| ==> '0' <= t[i] <= '9'
  {
    if t == [] then 0 else 10 * NatOf(t[..|t| - 1]) + (t[|t| - 1] as int - '0' as int)
  }

  lemma {:induction false} NatRoundTrip(n: nat)
    ensures NatOf(NatText(n)) == n
  {
    var t := NatText(n);
    if n < 10 {
      assert t[..0] == [];
      assert NatOf(t[..0]) == 0;
    } else {
      NatRoundTrip(n / 10);
      assert t[..|t| - 1] == NatText(n / 10);
    }
  }

  // ----- string literals (section 7 of RFC 8259, as JSON.stringify writes them)

  function HexDigit(d: int): (c: char)
    requires 0 <= d < 16
  {
    "0123456789abcdef"[d]
  }

  function EscapeChar(c: char): (e: string)
    ensures e != [] && e[0] != '"'
  {
    if c == '"' then ['\\', '"']
    else if c == '\\' then ['\\', '\\']
    else if c as int == 8 then ['\\', 'b']
    else if c as int == 9 then ['\\', 't']
    else if c as int == 10 then ['\\', 'n']
    else if c as int == 12 then ['\\', 'f']
    else if c as int == 13 then ['\\', 'r']
    else if c as int < 32 then ['\\', 'u', '0', '0', HexDigit(c as int / 16), HexDigit(c as int % 16)]
    else [c]
  }

  /** The body of a string literal and its closing quote. */
  function QuoteRest(s: string): (t: string)
    ensures t != []
  {
    if s == [] then ['"'] else EscapeChar(s[0]) + QuoteRest(s[1..])
  }

  /** JSON.stringify of a string. */
  function Quote(s: string): (t: string)
    ensures |t| >= 2 && t[0] == '"'
  {
    ['"'] + QuoteRest(s)
  }

  lemma HexDigitInjective(a: int, b: int)
    requires 0 <= a < 16 && 0 <= b < 16 && HexDigit(a) == HexDigit(b)
    ensures a == b
  {
  }

  /** No escape is a proper prefix of another: the first characters decide which character was written. */
  lemma EscapePrefixFree(a: char, b: char, ra: string, rb: string)
    requires EscapeChar(a) + ra == EscapeChar(b) + rb
    ensures a == b && ra == rb
  {
    var ea, eb := EscapeChar(a), EscapeChar(b);
    assert (ea + ra)[0] == ea[0] && (eb + rb)[0] == eb[0];
    if |ea| > 1 && |eb| > 1 {
      assert (ea + ra)[1] == ea[1] && (eb + rb)[1] == eb[1];
      if |ea| == 6 && |eb| == 6 {
        assert (ea + ra)[4] == ea[4] && (eb + rb)[4] == eb[4];
        assert (ea + ra)[5] == ea[5] && (eb + rb)[5] == eb[5];
        HexDigitInjective(a as int / 16, b as int / 16);
        HexDigitInjective(a as int % 16, b as int % 16);
      }
    }
    assert a == b;
    assert ra == (ea + ra)[|ea|..] && rb == (eb + rb)[|eb|..];
  }

  lemma QuoteRestSplit(s: string, r: string)
    requires s != []
    ensures QuoteRest(s) + r == EscapeChar(s[0]) + (QuoteRest(s[1..]) + r)
  {
  }

  lemma {:induction false} QuoteRestPrefixFree(s: string, t: string, rs: string, rt: string)
    requires QuoteRest(s) + rs == QuoteRest(t) + rt
    ensures s == t && rs == rt
  {
    if s == [] || t == [] {
      assert (QuoteRest(s) + rs)[0] == QuoteRest(s)[0] && (QuoteRest(t) + rt)[0] == QuoteRest(t)[0];
      assert s == [] && t == [];
      assert rs == (QuoteRest(s) + rs)[1..] && rt == (QuoteRest(t) + rt)[1..];
    } else {
      QuoteRestSplit(s, rs);
      QuoteRestSplit(t, rt);
      EscapePrefixFree(s[0], t[0], QuoteRest(s[1..]) + rs, QuoteRest(t[1..]) + rt);
      QuoteRestPrefixFree(s[1..], t[1..], rs, rt);
      assert s == [s[0]] + s[1..] && t == [t[0]] + t[1..];
    }
  }

  /** A string literal ends at its own closing quote, whatever follows it. */
  lemma QuotePrefixFree(s: string, t: string, rs: string, rt: string)
    requires Quote(s) + rs == Quote(t) + rt
    ensures s == t && rs == rt
  {
    hide QuoteRest;
    assert QuoteRest(s) + rs == (Quote(s) + rs)[1..] && QuoteRest(t) + rt == (Quote(t) + rt)[1..];
    QuoteRestPrefixFree(s, t, rs, rt);
  }
}
