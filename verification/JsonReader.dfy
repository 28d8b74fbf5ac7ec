/**
 * Reading JSON (RFC 8259) back: a reader of texts, and that it reads every canonical form back as the value it was made
 * of, without what the version drops, with strings as the version normalises them and members in the order of their
 * keys.
 */
module JsonReader {
  import opened Common
  import opened Json
  import opened Canonical

  datatype Parsed<T> = Parsed(value: T, rest: string)

  // ----- string literals (section 7)

  function HexValue(c: char): (r: Option<int>)
    ensures r.Some? ==> 0 <= r.value < 16
  {
    if '0' <= c <= '9' then Some(c as int - '0' as int)
    else if 'a' <= c <= 'f' then Some(c as int - 'a' as int + 10)
    else if 'A' <= c <= 'F' then Some(c as int - 'A' as int + 10)
    else None
  }

  /** The character of `\uXXXX`; a surrogate alone is no character. */
  function FourHex(t: string): (r: Option<char>)
    requires |t| == 4
  {
    match (HexValue(t[0]), HexValue(t[1]), HexValue(t[2]), HexValue(t[3]))
    case (Some(a), Some(b), Some(c), Some(d)) =>
      var n := a * 4096 + b * 256 + c * 16 + d;
      if n < 0xD800 then Some(n as char) else if 0xE000 <= n < 0x10000 then Some(n as char) else None
    case _ => None
  }

  /** The character a short escape stands for. */
  function ShortEscape(c: char): (r: Option<char>)
  {
    if c == '"' || c == '\\' || c == '/' then Some(c)
    else if c == 'b' then Some(8 as char)
    else if c == 'f' then Some(12 as char)
    else if c == 'n' then Some(10 as char)
    else if c == 'r' then Some(13 as char)
    else if c == 't' then Some(9 as char)
    else None
  }

  /** The next character of a literal, escaped or not. */
  function ReadChar(t: string): (r: Option<Parsed<char>>)
    requires t != []
    ensures r.Some? ==> |r.value.rest| < |t|
  {
    if t[0] == '\\' then
      if |t| >= 6 && t[1] == 'u' then
        match FourHex(t[2..6])
        case Some(c) => Some(Parsed(c, t[6..]))
        case None => None
      else if |t| >= 2 then
        match ShortEscape(t[1])
        case Some(c) => Some(Parsed(c, t[2..]))
        case None => None
      else None
    else if t[0] as int < 32 then None
    else Some(Parsed(t[0], t[1..]))
  }

  /** A literal after its opening quote, up to its closing one. */
  function ReadString(t: string): (r: Option<Parsed<string>>)
    ensures r.Some? ==> |r.value.rest| < |t|
    decreases |t|
  {
    if t == [] then None
    else if t[0] == '"' then Some(Parsed("", t[1..]))
    else match ReadChar(t)
      case None => None
      case Some(p) =>
        match ReadString(p.rest)
        case None => None
        case Some(q) => Some(Parsed([p.value] + q.value, q.rest))
  }

  // ----- values (sections 3 to 6)

  function TokenRun(t: string): (n: nat)
    ensures n <= |t| && (forall i :: 0 <= i < n ==> TokenChar(t[i])) && (n < |t| ==> !TokenChar(t[n]))
  {
    if t == [] || !TokenChar(t[0]) then 0 else 1 + TokenRun(t[1..])
  }

  predicate NumberOnly(t: string)
  {
    t != [] && forall i :: 0 <= i < |t| ==> NumberChar(t[i])
  }

  function ReadToken(t: string): (r: Option<Value>)
  {
    if t == "null" then Some(Null)
    else if t == "true" then Some(Bool(true))
    else if t == "false" then Some(Bool(false))
    else if NumberOnly(t) then Some(Num(t))
    else None
  }

  function ReadValue(t: string): (r: Option<Parsed<Value>>)
    ensures r.Some? ==> |r.value.rest| < |t|
    decreases |t|, 0
  {
    if t == [] then None
    else if t[0] == '"' then
      match ReadString(t[1..]) case Some(p) => Some(Parsed(Str(p.value), p.rest)) case None => None
    else if t[0] == '[' then
      if |t| > 1 && t[1] == ']' then Some(Parsed(Arr([]), t[2..]))
      else match ReadItems(t[1..]) case Some(p) => Some(Parsed(Arr(p.value), p.rest)) case None => None
    else if t[0] == '{' then
      if |t| > 1 && t[1] == '}' then Some(Parsed(Obj([]), t[2..]))
      else match ReadMembers(t[1..]) case Some(p) => Some(Parsed(Obj(p.value), p.rest)) case None => None
    else if TokenRun(t) == 0 then None
    else match ReadToken(t[..TokenRun(t)]) case Some(v) => Some(Parsed(v, t[TokenRun(t)..])) case None => None
  }

  /** Values between commas, up to the closing bracket. */
  function ReadItems(t: string): (r: Option<Parsed<seq<Value>>>)
    ensures r.Some? ==> |r.value.rest| < |t|
    decreases |t|, 1
  {
    match ReadValue(t)
    case None => None
    case Some(p) =>
      if p.rest == [] then None
      else if p.rest[0] == ']' then Some(Parsed([p.value], p.rest[1..]))
      else if p.rest[0] != ',' then None
      else match ReadItems(p.rest[1..])
        case None => None
        case Some(q) => Some(Parsed([p.value] + q.value, q.rest))
  }

  /** One `"key":value`. */
  function ReadMember(t: string): (r: Option<Parsed<Pair<Value>>>)
    ensures r.Some? ==> |r.value.rest| < |t|
    decreases |t|, 1
  {
    if t == [] || t[0] != '"' then None
    else match ReadString(t[1..])
      case None => None
      case Some(k) =>
        if k.rest == [] || k.rest[0] != ':' then None
        else match ReadValue(k.rest[1..])
          case None => None
          case Some(p) => Some(Parsed(Pair(k.value, p.value), p.rest))
  }

  function ReadMembers(t: string): (r: Option<Parsed<seq<Pair<Value>>>>)
    ensures r.Some? ==> |r.value.rest| < |t|
    decreases |t|, 2
  {
    match ReadMember(t)
    case None => None
    case Some(p) =>
      if p.rest == [] then None
      else if p.rest[0] == '}' then Some(Parsed([p.value], p.rest[1..]))
      else if p.rest[0] != ',' then None
      else match ReadMembers(p.rest[1..])
        case None => None
        case Some(q) => Some(Parsed([p.value] + q.value, q.rest))
  }

  // ----- what is read of a literal

  lemma ReadEscape(c: char, r: string)
    ensures EscapeChar(c) + r != [] && (EscapeChar(c) + r)[0] != '"'
    ensures ReadChar(EscapeChar(c) + r) == Some(Parsed(c, r))
  {
    var e := EscapeChar(c);
    var t := e + r;
    assert t[0] == e[0] && t[|e|..] == r;
    if |e| == 2 {
      assert t[1] == e[1] && t[2..] == r;
    } else if |e| == 6 {
      var n := c as int;
      assert t[1] == 'u' && t[6..] == r && t[2..6] == ['0', '0', HexDigit(n / 16), HexDigit(n % 16)];
      HexBack(n / 16);
      HexBack(n % 16);
    } else {
      assert t[1..] == r;
    }
  }

  lemma HexBack(d: int)
    requires 0 <= d < 16
    ensures HexValue(HexDigit(d)) == Some(d)
  {
  }

  /**
   * No text that reads as a character is shorter than the one it is printed as: nothing is escaped that need not be.
   */
  lemma ShortestEscape(c: char, e: string)
    requires e != [] && e[0] != '"' && ReadChar(e) == Some(Parsed(c, ""))
    ensures |EscapeChar(c)| <= |e|
  {
    if e[0] == '\\' {
      assert |e| >= 2;
      if |e| >= 6 && e[1] == 'u' {
        assert |e| == 6;
      } else {
        assert e[2..] == [] && |e| == 2 && ShortEscape(e[1]) == Some(c);
      }
    } else {
      assert e[0] == c && e[1..] == [];
    }
  }

  lemma {:induction false} ReadQuoteRest(s: string, r: string)
    ensures ReadString(QuoteRest(s) + r) == Some(Parsed(s, r))
  {
    if s == [] {
      assert (['"'] + r)[1..] == r;
    } else {
      var t := QuoteRest(s[1..]) + r;
      assert QuoteRest(s) + r == EscapeChar(s[0]) + t;
      ReadEscape(s[0], t);
      ReadQuoteRest(s[1..], r);
      assert [s[0]] + s[1..] == s;
    }
  }

  /** A printed string reads back as itself. */
  lemma ReadQuote(s: string, r: string)
    ensures Quote(s) + r != [] && (Quote(s) + r)[0] == '"' && ReadString((Quote(s) + r)[1..]) == Some(Parsed(s, r))
  {
    hide QuoteRest, ReadString;
    assert (Quote(s) + r)[1..] == QuoteRest(s) + r;
    ReadQuoteRest(s, r);
  }

  // ----- what is read of a value

  /** What is read back of a value: what the rules show of it, as JSON. */
  function Back(v: Value, rules: Rules, pos: Pos): (r: Value)
    decreases v
  {
    match v
    case Bool(b) => Bool(b)
    case Num(t) => Num(t)
    case BigInt(n) => Str(rules.bigint(n))
    case Str(s) => Str(rules.text(s, pos.keyName))
    case Arr(items) => Arr(BackItems(items, rules, pos))
    case Obj(fields) => Obj(SortByKey(BackFields(fields, rules, pos)))
    case _ => Null
  }

  function BackItems(items: seq<Value>, rules: Rules, pos: Pos): (r: seq<Value>)
    ensures |r| == |items|
    decreases items
  {
    if items == [] then [] else [Back(items[0], rules, InItem(pos))] + BackItems(items[1..], rules, pos)
  }

  /** The members that are neither excluded nor undefined. */
  function BackFields(fields: seq<Pair<Value>>, rules: Rules, pos: Pos): (r: seq<Pair<Value>>)
    decreases fields
  {
    if fields == [] then []
    else
      var f := fields[0];
      var rest := BackFields(fields[1..], rules, pos);
      if rules.excluded(f.key, pos.depth, pos.parent) || f.val.Undefined? then rest
      else [Pair(f.key, Back(f.val, rules, InKey(pos, f.key)))] + rest
  }

  // ----- reading a printed normal form

  /** Its tokens are literal names or numbers. */
  ghost predicate Legible(n: Norm)
  {
    match n
    case Lit(t) => Token(t) && ReadToken(t).Some?
    case Text(_) => true
    case List(items) => forall i :: 0 <= i < |items| ==> Legible(items[i])
    case Record(fields) => forall i :: 0 <= i < |fields| ==> Legible(fields[i].val)
  }

  function ToValue(n: Norm): (v: Value)
    decreases n
  {
    match n
    case Lit(t) => (match ReadToken(t) case Some(v) => v case None => Undefined)
    case Text(s) => Str(s)
    case List(items) => Arr(ToItems(items))
    case Record(fields) => Obj(ToFields(fields))
  }

  function ToItems(items: seq<Norm>): (vs: seq<Value>)
    ensures |vs| == |items|
    decreases items
  {
    if items == [] then [] else [ToValue(items[0])] + ToItems(items[1..])
  }

  function ToFields(fields: seq<Pair<Norm>>): (vs: seq<Pair<Value>>)
    ensures |vs| == |fields|
    decreases fields
  {
    if fields == [] then [] else [Pair(fields[0].key, ToValue(fields[0].val))] + ToFields(fields[1..])
  }

  ghost predicate AllLegible(items: seq<Norm>)
  {
    forall i :: 0 <= i < |items| ==> Legible(items[i])
  }

  ghost predicate MembersLegible(fields: seq<Pair<Norm>>)
  {
    forall i :: 0 <= i < |fields| ==> Legible(fields[i].val)
  }

  lemma {:induction false} LegiblePrintable(n: Norm)
    requires Legible(n)
    ensures Printable(n)
    decreases n
  {
    match n
    case List(items) => forall i | 0 <= i < |items| ensures Printable(items[i]) { LegiblePrintable(items[i]); }
    case Record(fields) =>
      forall i | 0 <= i < |fields| ensures Printable(fields[i].val) { LegiblePrintable(fields[i].val); }
    case _ =>
  }

  lemma {:induction false} TokenRunIs(t: string, r: string)
    requires (forall i :: 0 <= i < |t| ==> TokenChar(t[i])) && Stops(r)
    ensures TokenRun(t + r) == |t|
  {
    if t == [] {
      assert t + r == r;
    } else {
      assert (t + r)[1..] == t[1..] + r && (t + r)[0] == t[0];
      TokenRunIs(t[1..], r);
    }
  }

  lemma ReadLit(t: string, r: string)
    requires Token(t) && ReadToken(t).Some? && Stops(r)
    ensures ReadValue(t + r) == Some(Parsed(ReadToken(t).value, r))
  {
    hide ReadToken, ReadItems, ReadMembers, ReadString;
    TokenRunIs(t, r);
    assert (t + r)[0] == t[0] && (t + r)[..|t|] == t && (t + r)[|t|..] == r;
  }

  /** A printed value reads back, whatever follows it. */
  lemma {:induction false} ReadPrinted(n: Norm, r: string)
    requires Legible(n) && Stops(r)
    ensures ReadValue(Print(n) + r) == Some(Parsed(ToValue(n), r))
    decreases n, 1
  {
    hide ReadItems, ReadMembers, ReadString, ReadToken, Quote, Join, MemberTexts, PrintVals;
    match n
    case Lit(t) => ReadLit(t, r);
    case Text(s) => ReadQuote(s, r);
    case List(items) => ReadList(items, r);
    case Record(fields) => ReadRecord(fields, r);
  }

  lemma {:induction false} ReadList(items: seq<Norm>, r: string)
    requires AllLegible(items)
    ensures ReadValue(Print(List(items)) + r) == Some(Parsed(Arr(ToItems(items)), r))
    decreases items, 1
  {
    hide ReadMembers, ReadString, ReadToken, Legible;
    var body := Join(PrintItems(items)) + [']'] + r;
    var t := Print(List(items)) + r;
    assert t[0] == '[' && t[1..] == body;
    if items == [] {
      assert body[0] == ']' && t[2..] == r;
    } else {
      LegiblePrintable(items[0]);
      ItemsSplit(items, r);
      PrintStart(items[0]);
      assert body[0] == Print(items[0])[0] != ']' && t[1] == body[0];
      ReadPrintedItems(items, r);
    }
  }

  lemma {:induction false} ReadPrintedItems(items: seq<Norm>, r: string)
    requires items != [] && AllLegible(items)
    ensures ReadItems(Join(PrintItems(items)) + [']'] + r) == Some(Parsed(ToItems(items), r))
    decreases items, 0
  {
    hide ReadValue, Print, Legible, Join;
    var rest := ItemsRest(items, r);
    ItemsSplit(items, r);
    ReadPrinted(items[0], rest);
    if |items| == 1 {
      assert rest[1..] == r;
      assert items[1..] == [] && ToItems(items) == [ToValue(items[0])];
    } else {
      assert rest[0] == ',' && rest[1..] == Join(PrintItems(items[1..])) + [']'] + r;
      ReadPrintedItems(items[1..], r);
    }
  }

  lemma {:induction false} ReadRecord(fields: seq<Pair<Norm>>, r: string)
    requires MembersLegible(fields)
    ensures ReadValue(Print(Record(fields)) + r) == Some(Parsed(Obj(ToFields(fields)), r))
    decreases fields, 1
  {
    hide ReadItems, ReadString, ReadToken, Legible;
    var body := Join(MemberTexts(PrintVals(fields))) + ['}'] + r;
    var t := Print(Record(fields)) + r;
    assert t[0] == '{' && t[1..] == body;
    if fields == [] {
      assert body[0] == '}' && t[2..] == r;
    } else {
      FieldsSplit(fields, r);
      assert body[0] == '"' && t[1] == body[0];
      ReadPrintedMembers(fields, r);
    }
  }

  lemma {:induction false} ReadPrintedMembers(fields: seq<Pair<Norm>>, r: string)
    requires fields != [] && MembersLegible(fields)
    ensures ReadMembers(Join(MemberTexts(PrintVals(fields))) + ['}'] + r) == Some(Parsed(ToFields(fields), r))
    decreases fields, 0
  {
    hide ReadValue, Print, Legible, Join, ReadMember, MemberTexts, PrintVals, Quote;
    var rest := FieldsRest(fields, r);
    FieldsSplit(fields, r);
    ReadPrinted(fields[0].val, rest);
    ReadOne(fields[0].key, Print(fields[0].val) + rest, ToValue(fields[0].val), rest);
    if |fields| == 1 {
      assert rest[1..] == r;
      assert fields[1..] == [] && ToFields(fields) == [Pair(fields[0].key, ToValue(fields[0].val))];
    } else {
      assert rest[0] == ',' && rest[1..] == Join(MemberTexts(PrintVals(fields[1..]))) + ['}'] + r;
      ReadPrintedMembers(fields[1..], r);
    }
  }

  lemma ReadOne(key: string, text: string, v: Value, rest: string)
    requires ReadValue(text) == Some(Parsed(v, rest))
    ensures ReadMember(Quote(key) + ([':'] + text)) == Some(Parsed(Pair(key, v), rest))
  {
    hide ReadValue, ReadString, Quote;
    ReadQuote(key, [':'] + text);
    assert ([':'] + text)[1..] == text;
  }

  // ----- a canonical form reads back

  lemma {:induction false} NormalLegible(v: Value, rules: Rules, pos: Pos)
    requires WellFormed(v)
    ensures Legible(Normalize(v, rules, pos)) && ToValue(Normalize(v, rules, pos)) == Back(v, rules, pos)
    decreases v, 1
  {
    hide SortByKey, NormFields, BackFields, ToFields, NormItems, BackItems, ToItems;
    match v
    case Num(t) => NumberReads(t);
    case Arr(items) => ItemsLegible(items, rules, pos);
    case Obj(fields) =>
      FieldsLegible(fields, rules, pos);
      SortValues(NormFields(fields, rules, pos));
      SortElements(NormFields(fields, rules, pos));
    case _ => WordsRead();
  }

  lemma NumberReads(t: string)
    requires NumberText(t)
    ensures Token(t) && ReadToken(t) == Some(Num(t))
  {
    assert !NumberChar('n') && !NumberChar('t') && !NumberChar('f');
    assert t[0] != 'n' && t[0] != 't' && t[0] != 'f';
  }

  lemma WordsRead()
    ensures Token("null") && Token("true") && Token("false")
    ensures ReadToken("null") == Some(Null) && ReadToken("true") == Some(Bool(true))
    ensures ReadToken("false") == Some(Bool(false))
  {
    assert "true"[0] != "null"[0] && "false"[0] != "null"[0] && "false"[0] != "true"[0];
  }

  lemma {:induction false} ItemsLegible(items: seq<Value>, rules: Rules, pos: Pos)
    requires forall i :: 0 <= i < |items| ==> WellFormed(items[i])
    ensures AllLegible(NormItems(items, rules, pos))
    ensures ToItems(NormItems(items, rules, pos)) == BackItems(items, rules, pos)
    decreases items, 0
  {
    hide Normalize, Back, ToValue, Legible, WellFormed;
    if items != [] {
      NormalLegible(items[0], rules, InItem(pos));
      ItemsLegible(items[1..], rules, pos);
      var ns := NormItems(items, rules, pos);
      assert ns[1..] == NormItems(items[1..], rules, pos);
      assert forall i :: 0 < i < |ns| ==> ns[i] == ns[1..][i - 1];
    }
  }

  lemma {:induction false} FieldsLegible(fields: seq<Pair<Value>>, rules: Rules, pos: Pos)
    requires forall i :: 0 <= i < |fields| ==> WellFormed(fields[i].val)
    ensures forall p :: p in NormFields(fields, rules, pos) ==> Legible(p.val)
    ensures ToFields(NormFields(fields, rules, pos)) == BackFields(fields, rules, pos)
    decreases fields, 0
  {
    hide Normalize, Back, ToValue, Legible, WellFormed;
    if fields != [] {
      var f := fields[0];
      NormalLegible(f.val, rules, InKey(pos, f.key));
      FieldsLegible(fields[1..], rules, pos);
      var rest := NormFields(fields[1..], rules, pos);
      var head := [Pair(f.key, Normalize(f.val, rules, InKey(pos, f.key)))];
      assert (head + rest)[1..] == rest;
    }
  }

  lemma {:induction false} InsertValue(p: Pair<Norm>, ps: seq<Pair<Norm>>)
    ensures ToFields(Insert(p, ps)) == Insert(Pair(p.key, ToValue(p.val)), ToFields(ps))
  {
    hide ToValue;
    if ps == [] {
    } else if KeyLess(p.key, ps[0].key) {
      assert ([p] + ps)[1..] == ps;
    } else {
      InsertValue(p, ps[1..]);
      assert ([ps[0]] + Insert(p, ps[1..]))[1..] == Insert(p, ps[1..]);
      assert ToFields(ps)[1..] == ToFields(ps[1..]);
    }
  }

  lemma {:induction false} SortValues(ps: seq<Pair<Norm>>)
    ensures ToFields(SortByKey(ps)) == SortByKey(ToFields(ps))
  {
    hide ToValue;
    if ps != [] {
      SortValues(ps[1..]);
      InsertValue(ps[0], SortByKey(ps[1..]));
      assert ToFields(ps)[1..] == ToFields(ps[1..]);
    }
  }

  /**
   * A canonical form is JSON: it reads back, to its end, as what the rules show of the value it was made of, with the
   * members of every object in ascending order of their keys.
   */
  lemma CanonicalReadsBack(v: Value, rules: Rules, pos: Pos)
    requires WellFormed(v)
    ensures ReadValue(Serialize(v, rules, pos)) == Some(Parsed(Back(v, rules, pos), ""))
    ensures v.Obj? ==> Ascending(Back(v, rules, pos).fields)
  {
    hide ReadValue, Normalize, Serialize, Back, BackFields, Print;
    SerializePrintsNormal(v, rules, pos);
    NormalLegible(v, rules, pos);
    var t := Print(Normalize(v, rules, pos));
    assert t + [] == t;
    ReadPrinted(Normalize(v, rules, pos), []);
    if v.Obj? { BackAscends(v, rules, pos); }
  }

  lemma BackAscends(v: Value, rules: Rules, pos: Pos)
    requires v.Obj? && WellFormed(v)
    ensures Back(v, rules, pos).Obj? && Ascending(Back(v, rules, pos).fields)
  {
    hide SortByKey;
    BackDistinct(v.fields, rules, pos);
    SortKeeps(BackFields(v.fields, rules, pos));
  }

  lemma {:induction false} BackDistinct(fields: seq<Pair<Value>>, rules: Rules, pos: Pos)
    requires DistinctKeys(fields)
    ensures DistinctKeys(BackFields(fields, rules, pos))
    ensures forall p :: p in BackFields(fields, rules, pos) ==> HasKey(fields, p.key)
    decreases fields
  {
    hide Back;
    if fields != [] {
      TailDistinct(fields);
      BackDistinct(fields[1..], rules, pos);
      assert forall i :: 0 <= i < |fields[1..]| ==> fields[1..][i] == fields[i + 1];
      var rest := BackFields(fields[1..], rules, pos);
      forall p | p in rest ensures HasKey(fields, p.key) && p.key != fields[0].key {
        var i :| 0 <= i < |fields[1..]| && fields[1..][i].key == p.key;
        assert fields[i + 1].key == p.key;
      }
      var r := BackFields(fields, rules, pos);
      forall i, j | 0 <= i < j < |r| ensures r[i].key != r[j].key {
        if |r| > |rest| { assert r[j] == rest[j - 1] && r[j] in rest; }
      }
    }
  }
}
