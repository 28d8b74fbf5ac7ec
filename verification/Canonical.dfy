/**
 * The canonical serializer: a recursive printer whose exclusions depend on where a key sits, and the proof that what it
 * prints can be read back in only one way. The rules of a hash version are a parameter here; HashVersions gives the
 * five.
 */
module Canonical {
  import opened Common
  import opened Json

  /** What a version decides: which keys are dropped where, and the texts bigints and strings are printed as. */
  datatype Rules = Rules(
    excluded: (string, nat, Option<string>) -> bool,
    bigint: int -> string,
    text: (string, Option<string>) -> string)

  /** Where a value sits: its depth, the key that encloses it, and the key name strings are normalised under. */
  datatype Pos = Pos(depth: nat, parent: Option<string>, keyName: Option<string>)

  const TOP: Pos := Pos(0, None, None)

  function InKey(pos: Pos, key: string): (r: Pos)
  {
    Pos(pos.depth + 1, Some(key), Some(key))
  }

  function InItem(pos: Pos): (r: Pos)
  {
    Pos(pos.depth + 1, None, pos.keyName)
  }

  // ----- the printer

  function Join(parts: seq<string>): (t: string)
  {
    if parts == [] then ""
    else if |parts| == 1 then parts[0]
    else parts[0] + "," + Join(parts[1..])
  }

  function Serialize(v: Value, rules: Rules, pos: Pos): (t: string)
    decreases v
  {
    match v
    case Undefined => "null"
    case Null => "null"
    case Bool(b) => if b then "true" else "false"
    case Num(t) => t
    case NaN => "null"
    case Infinite(_) => "null"
    case BigInt(n) => Quote(rules.bigint(n))
    case Str(s) => Quote(rules.text(s, pos.keyName))
    case Arr(items) => "[" + Join(SerializeItems(items, rules, pos)) + "]"
    case Obj(fields) => "{" + Join(MemberTexts(SortByKey(SerializeFields(fields, rules, pos)))) + "}"
  }

  function SerializeItems(items: seq<Value>, rules: Rules, pos: Pos): (ts: seq<string>)
    decreases items
  {
    if items == [] then []
    else [Serialize(items[0], rules, InItem(pos))] + SerializeItems(items[1..], rules, pos)
  }

  /** Each member that is neither excluded nor undefined, with its printed value. */
  function SerializeFields(fields: seq<Pair<Value>>, rules: Rules, pos: Pos): (ts: seq<Pair<string>>)
    decreases fields
  {
    if fields == [] then []
    else
      var f := fields[0];
      var rest := SerializeFields(fields[1..], rules, pos);
      if rules.excluded(f.key, pos.depth, pos.parent) || f.val.Undefined? then rest
      else [Pair(f.key, Serialize(f.val, rules, InKey(pos, f.key)))] + rest
  }

  function MemberTexts(ps: seq<Pair<string>>): (ts: seq<string>)
  {
    if ps == [] then [] else [Quote(ps[0].key) + ":" + ps[0].val] + MemberTexts(ps[1..])
  }

  // ----- normal forms

  /** What a version sees of a value: exclusions applied, members in key order, strings normalised. */
  datatype Norm = Lit(token: string) | Text(s: string) | List(items: seq<Norm>) | Record(fields: seq<Pair<Norm>>)

  function Normalize(v: Value, rules: Rules, pos: Pos): (n: Norm)
    decreases v
  {
    match v
    case Undefined => Lit("null")
    case Null => Lit("null")
    case Bool(b) => Lit(if b then "true" else "false")
    case Num(t) => Lit(t)
    case NaN => Lit("null")
    case Infinite(_) => Lit("null")
    case BigInt(n) => Text(rules.bigint(n))
    case Str(s) => Text(rules.text(s, pos.keyName))
    case Arr(items) => List(NormItems(items, rules, pos))
    case Obj(fields) => Record(SortByKey(NormFields(fields, rules, pos)))
  }

  function NormItems(items: seq<Value>, rules: Rules, pos: Pos): (ns: seq<Norm>)
    ensures |ns| == |items|
    ensures forall i :: 0 <= i < |items| ==> ns[i] == Normalize(items[i], rules, InItem(pos))
    decreases items
  {
    if items == [] then []
    else [Normalize(items[0], rules, InItem(pos))] + NormItems(items[1..], rules, pos)
  }

  function NormFields(fields: seq<Pair<Value>>, rules: Rules, pos: Pos): (ns: seq<Pair<Norm>>)
    decreases fields
  {
    if fields == [] then []
    else
      var f := fields[0];
      var rest := NormFields(fields[1..], rules, pos);
      if rules.excluded(f.key, pos.depth, pos.parent) || f.val.Undefined? then rest
      else [Pair(f.key, Normalize(f.val, rules, InKey(pos, f.key)))] + rest
  }

  function Print(n: Norm): (t: string)
    decreases n
  {
    match n
    case Lit(t) => t
    case Text(s) => Quote(s)
    case List(items) => "[" + Join(PrintItems(items)) + "]"
    case Record(fields) => "{" + Join(MemberTexts(PrintVals(fields))) + "}"
  }

  function PrintItems(items: seq<Norm>): (ts: seq<string>)
    ensures |ts| == |items|
    decreases items
  {
    if items == [] then [] else [Print(items[0])] + PrintItems(items[1..])
  }

  function PrintVals(fields: seq<Pair<Norm>>): (ps: seq<Pair<string>>)
    ensures |ps| == |fields|
    decreases fields
  {
    if fields == [] then [] else [Pair(fields[0].key, Print(fields[0].val))] + PrintVals(fields[1..])
  }

  lemma {:induction false} InsertPrint(p: Pair<Norm>, ps: seq<Pair<Norm>>)
    ensures PrintVals(Insert(p, ps)) == Insert(Pair(p.key, Print(p.val)), PrintVals(ps))
  {
    if ps == [] {
    } else if KeyLess(p.key, ps[0].key) {
      assert ([p] + ps)[1..] == ps;
    } else {
      InsertPrint(p, ps[1..]);
      assert ([ps[0]] + Insert(p, ps[1..]))[1..] == Insert(p, ps[1..]);
      assert PrintVals(ps)[1..] == PrintVals(ps[1..]);
    }
  }

  lemma {:induction false} SortPrint(ps: seq<Pair<Norm>>)
    ensures PrintVals(SortByKey(ps)) == SortByKey(PrintVals(ps))
  {
    if ps != [] {
      SortPrint(ps[1..]);
      InsertPrint(ps[0], SortByKey(ps[1..]));
      assert PrintVals(ps)[1..] == PrintVals(ps[1..]);
    }
  }

  /** The printer prints a value's normal form and nothing else. */
  lemma {:induction false} SerializePrintsNormal(v: Value, rules: Rules, pos: Pos)
    ensures Serialize(v, rules, pos) == Print(Normalize(v, rules, pos))
    decreases v
  {
    match v
    case Arr(items) => SerializeItemsPrints(items, rules, pos);
    case Obj(fields) =>
      SerializeFieldsPrints(fields, rules, pos);
      SortPrint(NormFields(fields, rules, pos));
    case _ =>
  }

  lemma {:induction false} SerializeItemsPrints(items: seq<Value>, rules: Rules, pos: Pos)
    ensures SerializeItems(items, rules, pos) == PrintItems(NormItems(items, rules, pos))
    decreases items
  {
    if items != [] {
      SerializePrintsNormal(items[0], rules, InItem(pos));
      SerializeItemsPrints(items[1..], rules, pos);
      assert NormItems(items, rules, pos)[1..] == NormItems(items[1..], rules, pos);
    }
  }

  lemma {:induction false} SerializeFieldsPrints(fields: seq<Pair<Value>>, rules: Rules, pos: Pos)
    ensures SerializeFields(fields, rules, pos) == PrintVals(NormFields(fields, rules, pos))
    decreases fields
  {
    if fields != [] {
      var f := fields[0];
      SerializePrintsNormal(f.val, rules, InKey(pos, f.key));
      SerializeFieldsPrints(fields[1..], rules, pos);
      var rest := NormFields(fields[1..], rules, pos);
      var head := [Pair(f.key, Normalize(f.val, rules, InKey(pos, f.key)))];
      assert (head + rest)[1..] == rest;
    }
  }

  // ----- unique decodability

  ghost predicate Token(t: string)
  {
    t != [] && forall i :: 0 <= i < |t| ==> TokenChar(t[i])
  }

  ghost predicate Printable(n: Norm)
  {
    match n
    case Lit(t) => Token(t)
    case Text(_) => true
    case List(items) => forall i :: 0 <= i < |items| ==> Printable(items[i])
    case Record(fields) => forall i :: 0 <= i < |fields| ==> Printable(fields[i].val)
  }

  /** What may follow a printed value: nothing, a separator or a closing bracket. */
  predicate Stops(r: string)
  {
    r == [] || r[0] == ',' || r[0] == ']' || r[0] == '}'
  }

  lemma {:induction false} TokenPrefixFree(a: string, b: string, ra: string, rb: string)
    requires forall i :: 0 <= i < |a| ==> TokenChar(a[i])
    requires forall i :: 0 <= i < |b| ==> TokenChar(b[i])
    requires Stops(ra) && Stops(rb) && a + ra == b + rb
    ensures a == b && ra == rb
  {
    assert a == [] || (a + ra)[0] == a[0];
    assert b == [] || (b + rb)[0] == b[0];
    if a == [] {
      assert ra == a + ra;
      assert b == [];
      assert rb == b + rb;
    } else {
      assert b != [];
      assert (a + ra)[1..] == a[1..] + ra && (b + rb)[1..] == b[1..] + rb;
      TokenPrefixFree(a[1..], b[1..], ra, rb);
      assert a == [a[0]] + a[1..] && b == [b[0]] + b[1..];
    }
  }

  /** The first character of a printed value decides its kind, and is never a separator or a closing bracket. */
  lemma PrintStart(n: Norm)
    requires Printable(n)
    ensures Print(n) != []
    ensures n.Lit? ==> TokenChar(Print(n)[0])
    ensures n.Text? ==> Print(n)[0] == '"'
    ensures n.List? ==> Print(n)[0] == '['
    ensures n.Record? ==> Print(n)[0] == '{'
  {
  }

  lemma JoinSplit(parts: seq<string>, close: char, r: string)
    requires parts != []
    ensures Join(parts) + [close] + r
            == parts[0] + (if |parts| == 1 then [close] + r else [','] + (Join(parts[1..]) + [close] + r))
  {
  }

  lemma Unbracket(open: string, body: string, close: string, r: string)
    requires |open| == 1
    ensures (open + body + close + r)[1..] == body + close + r
  {
  }

  /** Two printed values followed by stops agree only when both the values and what follows agree. */
  lemma {:induction false} PrintPrefixFree(a: Norm, b: Norm, ra: string, rb: string)
    requires Printable(a) && Printable(b) && Stops(ra) && Stops(rb)
    requires Print(a) + ra == Print(b) + rb
    ensures a == b && ra == rb
    decreases a
  {
    PrintStart(a);
    PrintStart(b);
    assert (Print(a) + ra)[0] == Print(a)[0] && (Print(b) + rb)[0] == Print(b)[0];
    match a
    case Lit(t) => TokenPrefixFree(t, b.token, ra, rb);
    case Text(s) => QuotePrefixFree(s, b.s, ra, rb);
    case List(items) =>
      Unbracket("[", Join(PrintItems(items)), "]", ra);
      Unbracket("[", Join(PrintItems(b.items)), "]", rb);
      ItemsPrefixFree(items, b.items, ra, rb);
    case Record(fields) =>
      Unbracket("{", Join(MemberTexts(PrintVals(fields))), "}", ra);
      Unbracket("{", Join(MemberTexts(PrintVals(b.fields))), "}", rb);
      FieldsPrefixFree(fields, b.fields, ra, rb);
  }

  /** What follows the first item of a printed list. */
  function ItemsRest(items: seq<Norm>, r: string): (t: string)
    requires items != []
    ensures Stops(t) && t != []
  {
    if |items| == 1 then [']'] + r else [','] + (Join(PrintItems(items[1..])) + [']'] + r)
  }

  lemma ItemsSplit(items: seq<Norm>, r: string)
    requires items != []
    ensures Join(PrintItems(items)) + [']'] + r == Print(items[0]) + ItemsRest(items, r)
  {
    JoinSplit(PrintItems(items), ']', r);
  }

  lemma {:induction false} ItemsPrefixFree(xs: seq<Norm>, ys: seq<Norm>, rx: string, ry: string)
    requires forall i :: 0 <= i < |xs| ==> Printable(xs[i])
    requires forall i :: 0 <= i < |ys| ==> Printable(ys[i])
    requires Join(PrintItems(xs)) + [']'] + rx == Join(PrintItems(ys)) + [']'] + ry
    ensures xs == ys && rx == ry
    decreases xs
  {
    var tx, ty := Join(PrintItems(xs)) + [']'] + rx, Join(PrintItems(ys)) + [']'] + ry;
    if xs != [] { ItemsSplit(xs, rx); PrintStart(xs[0]); assert tx[0] == Print(xs[0])[0]; }
    if ys != [] { ItemsSplit(ys, ry); PrintStart(ys[0]); assert ty[0] == Print(ys[0])[0]; }
    if xs == [] || ys == [] {
      assert xs == [] && ys == [];
      assert rx == tx[1..] && ry == ty[1..];
    } else {
      PrintPrefixFree(xs[0], ys[0], ItemsRest(xs, rx), ItemsRest(ys, ry));
      assert ItemsRest(xs, rx)[0] == ItemsRest(ys, ry)[0];
      if |xs| == 1 {
        assert rx == ItemsRest(xs, rx)[1..] && ry == ItemsRest(ys, ry)[1..];
      } else {
        assert Join(PrintItems(xs[1..])) + [']'] + rx == ItemsRest(xs, rx)[1..];
        assert Join(PrintItems(ys[1..])) + [']'] + ry == ItemsRest(ys, ry)[1..];
        ItemsPrefixFree(xs[1..], ys[1..], rx, ry);
      }
      assert xs == [xs[0]] + xs[1..] && ys == [ys[0]] + ys[1..];
    }
  }

  /** What follows the first member of a printed object. */
  function FieldsRest(fields: seq<Pair<Norm>>, r: string): (t: string)
    requires fields != []
    ensures Stops(t) && t != []
  {
    if |fields| == 1 then ['}'] + r else [','] + (Join(MemberTexts(PrintVals(fields[1..]))) + ['}'] + r)
  }

  lemma FieldsSplit(fields: seq<Pair<Norm>>, r: string)
    requires fields != []
    ensures Join(MemberTexts(PrintVals(fields))) + ['}'] + r
            == Quote(fields[0].key) + ([':'] + (Print(fields[0].val) + FieldsRest(fields, r)))
  {
    var ts := MemberTexts(PrintVals(fields));
    assert PrintVals(fields)[1..] == PrintVals(fields[1..]);
    assert ts == [Quote(fields[0].key) + ":" + Print(fields[0].val)] + MemberTexts(PrintVals(fields[1..]));
    MemberTextsLength(PrintVals(fields));
    JoinSplit(ts, '}', r);
    assert Join(ts) + ['}'] + r == ts[0] + FieldsRest(fields, r);
    Regroup(Quote(fields[0].key), Print(fields[0].val), FieldsRest(fields, r));
  }

  lemma Regroup(k: string, v: string, r: string)
    ensures k + ":" + v + r == k + ([':'] + (v + r))
  {
  }

  lemma MemberTextsLength(ps: seq<Pair<string>>)
    ensures |MemberTexts(ps)| == |ps|
  {
  }

  lemma {:induction false} FieldsPrefixFree(xs: seq<Pair<Norm>>, ys: seq<Pair<Norm>>, rx: string, ry: string)
    requires forall i :: 0 <= i < |xs| ==> Printable(xs[i].val)
    requires forall i :: 0 <= i < |ys| ==> Printable(ys[i].val)
    requires Join(MemberTexts(PrintVals(xs))) + ['}'] + rx == Join(MemberTexts(PrintVals(ys))) + ['}'] + ry
    ensures xs == ys && rx == ry
    decreases xs
  {
    var tx, ty := Join(MemberTexts(PrintVals(xs))) + ['}'] + rx, Join(MemberTexts(PrintVals(ys))) + ['}'] + ry;
    if xs != [] { FieldsSplit(xs, rx); assert tx[0] == '"'; }
    if ys != [] { FieldsSplit(ys, ry); assert ty[0] == '"'; }
    if xs == [] || ys == [] {
      assert xs == [] && ys == [];
      assert rx == tx[1..] && ry == ty[1..];
    } else {
      var vx, vy := Print(xs[0].val) + FieldsRest(xs, rx), Print(ys[0].val) + FieldsRest(ys, ry);
      QuotePrefixFree(xs[0].key, ys[0].key, [':'] + vx, [':'] + vy);
      assert vx == ([':'] + vx)[1..] && vy == ([':'] + vy)[1..];
      PrintPrefixFree(xs[0].val, ys[0].val, FieldsRest(xs, rx), FieldsRest(ys, ry));
      FieldsRestPrefixFree(xs, ys, rx, ry);
      assert xs == [xs[0]] + xs[1..] && ys == [ys[0]] + ys[1..];
    }
  }

  lemma {:induction false} FieldsRestPrefixFree(xs: seq<Pair<Norm>>, ys: seq<Pair<Norm>>, rx: string, ry: string)
    requires xs != [] && ys != []
    requires forall i :: 0 <= i < |xs| ==> Printable(xs[i].val)
    requires forall i :: 0 <= i < |ys| ==> Printable(ys[i].val)
    requires FieldsRest(xs, rx) == FieldsRest(ys, ry)
    ensures xs[1..] == ys[1..] && rx == ry
    decreases xs, 0
  {
    assert FieldsRest(xs, rx)[0] == FieldsRest(ys, ry)[0];
    if |xs| == 1 {
      assert rx == FieldsRest(xs, rx)[1..] && ry == FieldsRest(ys, ry)[1..];
    } else {
      assert Join(MemberTexts(PrintVals(xs[1..]))) + ['}'] + rx == FieldsRest(xs, rx)[1..];
      assert Join(MemberTexts(PrintVals(ys[1..]))) + ['}'] + ry == FieldsRest(ys, ry)[1..];
      FieldsPrefixFree(xs[1..], ys[1..], rx, ry);
    }
  }

  // ----- what the canonical form decides

  lemma {:induction false} NormalPrintable(v: Value, rules: Rules, pos: Pos)
    requires WellFormed(v)
    ensures Printable(Normalize(v, rules, pos))
    decreases v
  {
    match v
    case Arr(items) =>
      forall i | 0 <= i < |items| ensures Printable(NormItems(items, rules, pos)[i]) {
        NormalPrintable(items[i], rules, InItem(pos));
      }
    case Obj(fields) =>
      NormFieldsPrintable(fields, rules, pos);
      SortElements(NormFields(fields, rules, pos));
    case _ =>
  }

  lemma {:induction false} NormFieldsPrintable(fields: seq<Pair<Value>>, rules: Rules, pos: Pos)
    requires forall i :: 0 <= i < |fields| ==> WellFormed(fields[i].val)
    ensures forall p :: p in NormFields(fields, rules, pos) ==> Printable(p.val)
    decreases fields
  {
    if fields != [] {
      NormalPrintable(fields[0].val, rules, InKey(pos, fields[0].key));
      NormFieldsPrintable(fields[1..], rules, pos);
    }
  }

  lemma {:induction false} InsertElements<T>(p: Pair<T>, ps: seq<Pair<T>>)
    ensures forall q :: q in Insert(p, ps) ==> q == p || q in ps
  {
    if ps != [] && !KeyLess(p.key, ps[0].key) {
      InsertElements(p, ps[1..]);
      assert ps == [ps[0]] + ps[1..];
    }
  }

  lemma {:induction false} SortElements<T>(ps: seq<Pair<T>>)
    ensures forall q :: q in SortByKey(ps) ==> q in ps
  {
    if ps != [] {
      SortElements(ps[1..]);
      InsertElements(ps[0], SortByKey(ps[1..]));
      assert ps == [ps[0]] + ps[1..];
    }
  }

  /** Two values print the same string exactly when they have the same normal form, each under its own rules. */
  lemma FormsDecideNormal(a: Value, b: Value, ra: Rules, rb: Rules, pa: Pos, pb: Pos)
    requires WellFormed(a) && WellFormed(b)
    ensures Serialize(a, ra, pa) == Serialize(b, rb, pb) <==> Normalize(a, ra, pa) == Normalize(b, rb, pb)
  {
    SerializePrintsNormal(a, ra, pa);
    SerializePrintsNormal(b, rb, pb);
    var na, nb := Normalize(a, ra, pa), Normalize(b, rb, pb);
    if Print(na) == Print(nb) {
      NormalPrintable(a, ra, pa);
      NormalPrintable(b, rb, pb);
      assert Print(na) + [] == Print(nb) + [];
      PrintPrefixFree(na, nb, [], []);
    }
  }

  // ----- equality up to exclusions and normalisation, without printing or sorting

  predicate PrintsNull(v: Value)
  {
    v.Undefined? || v.Null? || v.NaN? || v.Infinite?
  }

  predicate PrintsString(v: Value)
  {
    v.Str? || v.BigInt?
  }

  function StringOf(v: Value, rules: Rules, pos: Pos): (s: string)
    requires PrintsString(v)
  {
    if v.Str? then rules.text(v.s, pos.keyName) else rules.bigint(v.n)
  }

  predicate Keeps(f: Pair<Value>, rules: Rules, pos: Pos)
  {
    !rules.excluded(f.key, pos.depth, pos.parent) && !f.val.Undefined?
  }

  /**
   * Equal as the version sees them: arrays element by element, objects by the members it keeps (in any order), numbers
   * by value, strings and bigints by the text they are printed as.
   */
  ghost predicate Equivalent(a: Value, b: Value, rules: Rules, pos: Pos)
    decreases a
  {
    if a.Arr? && b.Arr? then
      |a.items| == |b.items|
        && forall i :: 0 <= i < |a.items| ==> Equivalent(a.items[i], b.items[i], rules, InItem(pos))
    else if a.Obj? && b.Obj? then
      && (forall i :: 0 <= i < |a.fields| && Keeps(a.fields[i], rules, pos) ==>
            && Member(b, a.fields[i].key) != Undefined
            && Equivalent(a.fields[i].val, Member(b, a.fields[i].key), rules, InKey(pos, a.fields[i].key)))
      && (forall j :: 0 <= j < |b.fields| && Keeps(b.fields[j], rules, pos) ==> Member(a, b.fields[j].key) != Undefined)
    else
      || (PrintsNull(a) && PrintsNull(b))
      || (a.Bool? && a == b)
      || (a.Num? && a == b)
      || (PrintsString(a) && PrintsString(b) && StringOf(a, rules, pos) == StringOf(b, rules, pos))
  }

  /** What a version shows of a member: nothing for an undefined one. */
  function Shown(v: Value, rules: Rules, pos: Pos, member: bool): (r: Option<Norm>)
  {
    if member && v.Undefined? then None else Some(Normalize(v, rules, pos))
  }

  function ShownMember(fields: seq<Pair<Value>>, k: string, rules: Rules, pos: Pos): (r: Option<Norm>)
  {
    if rules.excluded(k, pos.depth, pos.parent) then None
    else match Lookup(fields, k)
      case None => None
      case Some(v) => Shown(v, rules, InKey(pos, k), true)
  }

  lemma {:induction false} NormFieldsLookup(fields: seq<Pair<Value>>, rules: Rules, pos: Pos)
    requires DistinctKeys(fields)
    ensures DistinctKeys(NormFields(fields, rules, pos))
    ensures forall k :: Lookup(NormFields(fields, rules, pos), k) == ShownMember(fields, k, rules, pos)
    decreases fields
  {
    if fields != [] {
      TailDistinct(fields);
      NormFieldsLookup(fields[1..], rules, pos);
      var f := fields[0];
      var rest := NormFields(fields[1..], rules, pos);
      assert Lookup(rest, f.key) == ShownMember(fields[1..], f.key, rules, pos) == None;
      var head := [Pair(f.key, Normalize(f.val, rules, InKey(pos, f.key)))];
      assert (head + rest)[1..] == rest;
      forall k ensures Lookup(NormFields(fields, rules, pos), k) == ShownMember(fields, k, rules, pos) {
        assert Lookup(rest, k) == ShownMember(fields[1..], k, rules, pos);
      }
    }
  }

  /** The two sides show the same under every key, each under its own rules. */
  ghost predicate SameShown(fs: seq<Pair<Value>>, gs: seq<Pair<Value>>, rf: Rules, rg: Rules, pos: Pos)
  {
    forall k :: ShownMember(fs, k, rf, pos) == ShownMember(gs, k, rg, pos)
  }

  lemma LookupsAreShown(fs: seq<Pair<Value>>, gs: seq<Pair<Value>>, rf: Rules, rg: Rules, pos: Pos)
    requires DistinctKeys(fs) && DistinctKeys(gs)
    ensures SameLookups(NormFields(fs, rf, pos), NormFields(gs, rg, pos)) <==> SameShown(fs, gs, rf, rg, pos)
  {
    NormFieldsLookup(fs, rf, pos);
    NormFieldsLookup(gs, rg, pos);
    var nf, ng := NormFields(fs, rf, pos), NormFields(gs, rg, pos);
    forall k ensures Lookup(nf, k) == Lookup(ng, k) <==> ShownMember(fs, k, rf, pos) == ShownMember(gs, k, rg, pos) {
      assert Lookup(nf, k) == ShownMember(fs, k, rf, pos);
      assert Lookup(ng, k) == ShownMember(gs, k, rg, pos);
    }
  }

  /** Objects have one normal form exactly when they show the same under every key. */
  lemma ObjectsNormalEqual(fs: seq<Pair<Value>>, gs: seq<Pair<Value>>, rf: Rules, rg: Rules, pos: Pos)
    requires DistinctKeys(fs) && DistinctKeys(gs)
    ensures Normalize(Obj(fs), rf, pos) == Normalize(Obj(gs), rg, pos) <==> SameShown(fs, gs, rf, rg, pos)
  {
    hide SameShown, SameLookups, NormFields, SortByKey, Lookup;
    NormFieldsLookup(fs, rf, pos);
    NormFieldsLookup(gs, rg, pos);
    SortedEqual(NormFields(fs, rf, pos), NormFields(gs, rg, pos));
    LookupsAreShown(fs, gs, rf, rg, pos);
  }

  /** The order in which an object lists its members never shows. */
  lemma KeyOrderIrrelevant(fs: seq<Pair<Value>>, gs: seq<Pair<Value>>, rules: Rules, pos: Pos)
    requires DistinctKeys(fs) && DistinctKeys(gs)
    requires SameLookups(fs, gs)
    ensures Serialize(Obj(fs), rules, pos) == Serialize(Obj(gs), rules, pos)
  {
    assert SameShown(fs, gs, rules, rules, pos);
    ObjectsNormalEqual(fs, gs, rules, rules, pos);
    SerializePrintsNormal(Obj(fs), rules, pos);
    SerializePrintsNormal(Obj(gs), rules, pos);
  }

  lemma {:induction false} NormalDecidesEquivalent(a: Value, b: Value, rules: Rules, pos: Pos)
    requires WellFormed(a) && WellFormed(b)
    ensures Normalize(a, rules, pos) == Normalize(b, rules, pos) <==> Equivalent(a, b, rules, pos)
    decreases a
  {
    hide NormFields, SortByKey, Lookup, Member;
    if a.Arr? && b.Arr? {
      var na, nb := NormItems(a.items, rules, pos), NormItems(b.items, rules, pos);
      if |a.items| == |b.items| {
        forall i | 0 <= i < |a.items|
          ensures na[i] == nb[i] <==> Equivalent(a.items[i], b.items[i], rules, InItem(pos))
        {
          NormalDecidesEquivalent(a.items[i], b.items[i], rules, InItem(pos));
        }
      }
    } else if a.Obj? && b.Obj? {
      ObjectsDecideEquivalent(a, b, rules, pos);
    } else if a.Num? || b.Num? {
      assert a.Num? ==> NumberChar(a.text[0]);
      assert b.Num? ==> NumberChar(b.text[0]);
    }
  }

  lemma {:induction false} ObjectsDecideEquivalent(a: Value, b: Value, rules: Rules, pos: Pos)
    requires a.Obj? && b.Obj? && WellFormed(a) && WellFormed(b)
    ensures Normalize(a, rules, pos) == Normalize(b, rules, pos) <==> Equivalent(a, b, rules, pos)
    decreases a, 0
  {
    ObjectsNormalEqual(a.fields, b.fields, rules, rules, pos);
    forall i | 0 <= i < |a.fields| ensures MemberDecided(a, b, i, rules, pos) {
      MemberWellFormed(b, a.fields[i].key);
      NormalDecidesEquivalent(a.fields[i].val, Member(b, a.fields[i].key), rules, InKey(pos, a.fields[i].key));
    }
    if SameShown(a.fields, b.fields, rules, rules, pos) {
      SameMembersEquivalent(a, b, rules, pos);
    }
    if Equivalent(a, b, rules, pos) {
      forall k ensures ShownMember(a.fields, k, rules, pos) == ShownMember(b.fields, k, rules, pos) {
        EquivalentSameMember(a, b, k, rules, pos);
      }
    }
  }

  lemma MemberWellFormed(v: Value, key: string)
    requires WellFormed(v)
    ensures WellFormed(Member(v, key))
  {
  }

  ghost predicate MemberDecided(a: Value, b: Value, i: nat, rules: Rules, pos: Pos)
    requires a.Obj? && i < |a.fields|
  {
    var f := a.fields[i];
    Normalize(f.val, rules, InKey(pos, f.key)) == Normalize(Member(b, f.key), rules, InKey(pos, f.key))
    <==> Equivalent(f.val, Member(b, f.key), rules, InKey(pos, f.key))
  }

  lemma SameMembersEquivalent(a: Value, b: Value, rules: Rules, pos: Pos)
    requires a.Obj? && b.Obj? && DistinctKeys(a.fields) && DistinctKeys(b.fields)
    requires forall i :: 0 <= i < |a.fields| ==> MemberDecided(a, b, i, rules, pos)
    requires SameShown(a.fields, b.fields, rules, rules, pos)
    ensures Equivalent(a, b, rules, pos)
  {
    forall i | 0 <= i < |a.fields| && Keeps(a.fields[i], rules, pos)
      ensures Member(b, a.fields[i].key) != Undefined
      ensures Equivalent(a.fields[i].val, Member(b, a.fields[i].key), rules, InKey(pos, a.fields[i].key))
    {
      LookupAt(a.fields, i);
      var k := a.fields[i].key;
      assert ShownMember(a.fields, k, rules, pos) == ShownMember(b.fields, k, rules, pos);
      assert MemberDecided(a, b, i, rules, pos);
    }
    forall j | 0 <= j < |b.fields| && Keeps(b.fields[j], rules, pos) ensures Member(a, b.fields[j].key) != Undefined {
      LookupAt(b.fields, j);
      var k := b.fields[j].key;
      assert ShownMember(a.fields, k, rules, pos) == ShownMember(b.fields, k, rules, pos);
    }
  }

  lemma EquivalentSameMember(a: Value, b: Value, k: string, rules: Rules, pos: Pos)
    requires a.Obj? && b.Obj? && DistinctKeys(a.fields) && DistinctKeys(b.fields)
    requires forall i :: 0 <= i < |a.fields| ==> MemberDecided(a, b, i, rules, pos)
    requires Equivalent(a, b, rules, pos)
    ensures ShownMember(a.fields, k, rules, pos) == ShownMember(b.fields, k, rules, pos)
  {
    if HasKey(a.fields, k) {
      var i :| 0 <= i < |a.fields| && a.fields[i].key == k;
      LookupAt(a.fields, i);
      assert MemberDecided(a, b, i, rules, pos);
    }
    if HasKey(b.fields, k) {
      var j :| 0 <= j < |b.fields| && b.fields[j].key == k;
      LookupAt(b.fields, j);
      assert Keeps(b.fields[j], rules, pos) ==> Member(a, k) != Undefined;
    }
  }

  /**
   * Canonical forms are uniquely decodable: one printed form, one value, up to exclusions, normalisation and key order.
   */
  lemma UniquelyDecodable(a: Value, b: Value, rules: Rules, pos: Pos)
    requires WellFormed(a) && WellFormed(b)
    ensures Serialize(a, rules, pos) == Serialize(b, rules, pos) <==> Equivalent(a, b, rules, pos)
  {
    FormsDecideNormal(a, b, rules, rules, pos, pos);
    NormalDecidesEquivalent(a, b, rules, pos);
  }
}
