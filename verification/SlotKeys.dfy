/**
 * Which public keys a contract function checks each of its signatures against: a walk over the calls of its body that
 * follows the contract's own helpers.
 */
module SlotKeys {
  import opened Common
  import Covenant

  type Key = seq<int>

  /** A node of the parsed source: an identifier, a call (expression or statement), an array, or anything else. */
  datatype Node =
    | Name(id: string)
    | Call(name: string, args: seq<Node>)
    | List(items: seq<Node>)
    | Block(parts: seq<Node>)

  datatype Param = Param(name: string, base: string)

  datatype Function = Function(name: string, entrypoint: bool, params: seq<Param>, body: Node)

  datatype Field = Field(name: string, init: Node)

  datatype Contract = Contract(params: seq<string>, fields: seq<Field>, functions: seq<Function>)

  datatype CallSite = CallSite(name: string, args: seq<Node>)

  /**
   * What the analysis reads beside the source: constructor and function arguments and the state the spent output holds.
   */
  datatype Given = Given(ctorArgs: seq<Covenant.Sil>, fnArgs: map<string, Covenant.Sil>,
                         state: Option<map<string, Covenant.Sil>>)

  // ----- reading the source

  /** Every call in a node, each before the calls in its arguments. */
  function Calls(n: Node): (r: seq<CallSite>)
    decreases n
  {
    match n
    case Name(_) => []
    case Call(name, args) => [CallSite(name, args)] + CallsAll(args)
    case List(items) => CallsAll(items)
    case Block(parts) => CallsAll(parts)
  }

  function CallsAll(ns: seq<Node>): (r: seq<CallSite>)
    decreases ns
  {
    if ns == [] then [] else Calls(ns[0]) + CallsAll(ns[1..])
  }

  function IdentifierOf(args: seq<Node>, k: nat): (r: Option<string>)
  {
    if k < |args| && args[k].Name? then Some(args[k].id) else None
  }

  /** The identifier an expression naming a key gives: `x` or `pubkey(x)`. */
  function KeyExpr(e: Node): (r: Option<string>)
  {
    match e
    case Name(x) => Some(x)
    case Call(name, args) => if name == "pubkey" && |args| == 1 then IdentifierOf(args, 0) else None
    case _ => None
  }

  /** The identifiers of an array, when every item is one. */
  function Identifiers(items: seq<Node>): (r: Option<seq<string>>)
  {
    if items == [] then Some([])
    else if !items[0].Name? then None
    else match Identifiers(items[1..])
      case Some(rest) => Some([items[0].id] + rest)
      case None => None
  }

  function FindFunction(fs: seq<Function>, name: string): (r: Option<Function>)
    ensures r.Some? ==> r.value in fs && r.value.name == name
  {
    if fs == [] then None else if fs[0].name == name then Some(fs[0]) else FindFunction(fs[1..], name)
  }

  /** The contract's helper of that name: a function that is not an entrypoint. */
  function FindHelper(fs: seq<Function>, name: string): (r: Option<Function>)
    ensures r.Some? ==> r.value in fs && r.value.name == name && !r.value.entrypoint
  {
    if fs == [] then None
    else if fs[0].name == name && !fs[0].entrypoint then Some(fs[0])
    else FindHelper(fs[1..], name)
  }

  // ----- names and the keys they stand for

  function KeyBytes(v: Covenant.Sil): (r: Option<Key>)
  {
    if v.Bytes? && |v.bytes| == 32 then Some(v.bytes) else None
  }

  function CtorKey(g: Given, k: nat): (r: Option<Key>)
  {
    if k < |g.ctorArgs| then KeyBytes(g.ctorArgs[k]) else None
  }

  function FindField(fs: seq<Field>, name: string): (r: Option<Field>)
    ensures r.None? ==> forall f :: f in fs ==> f.name != name
    ensures r.Some? ==> r.value in fs && r.value.name == name
  {
    if fs == [] then None else if fs[0].name == name then Some(fs[0]) else FindField(fs[1..], name)
  }

  function FindParam(ps: seq<Param>, name: string): (r: Option<Param>)
    ensures r.None? ==> forall p :: p in ps ==> p.name != name
    ensures r.Some? ==> r.value in ps && r.value.name == name
  {
    if ps == [] then None else if ps[0].name == name then Some(ps[0]) else FindParam(ps[1..], name)
  }

  /** The key a name stands for in the scope of the top-level function. */
  function KeyOfName(c: Contract, fn: Function, g: Given, name: string): (r: Option<Key>)
  {
    match Covenant.IndexOf(c.params, name)
    case Some(i) => CtorKey(g, i)
    case None =>
      match FindField(c.fields, name)
      case Some(field) =>
        if g.state.Some? && name in g.state.value then KeyBytes(g.state.value[name])
        else if field.init.Name? then
          (match Covenant.IndexOf(c.params, field.init.id)
           case Some(i) => CtorKey(g, i)
           case None => None)
        else None
      case None =>
        match FindParam(fn.params, name)
        case Some(p) => if p.base == "pubkey" && name in g.fnArgs then KeyBytes(g.fnArgs[name]) else None
        case None => None
  }

  function SigParams(ps: seq<Param>): (r: seq<string>)
  {
    if ps == [] then [] else if ps[0].base == "sig" then [ps[0].name] + SigParams(ps[1..]) else SigParams(ps[1..])
  }

  // ----- checks

  /** One check of a top-level signature: the keys it is checked against, or that they cannot be told. */
  datatype Check = Check(sig: string, keys: Option<seq<Key>>)

  /** A scope: the top-level signature and the key a local name stands for. */
  datatype Scope = Scope(sigOf: string -> Option<string>, keyOf: string -> Option<Key>)

  function KeyIn(s: Scope, e: Node): (r: Option<Key>)
  {
    match KeyExpr(e) case Some(x) => s.keyOf(x) case None => None
  }

  function KeysIn(s: Scope, items: seq<Node>): (r: Option<seq<Key>>)
  {
    if items == [] then Some([])
    else match (KeyIn(s, items[0]), KeysIn(s, items[1..]))
      case (Some(k), Some(rest)) => Some([k] + rest)
      case _ => None
  }

  function ChecksOf(s: Scope, names: seq<string>, keys: Option<seq<Key>>): (r: seq<Check>)
  {
    if names == [] then []
    else (match s.sigOf(names[0]) case Some(sig) => [Check(sig, keys)] case None => []) + ChecksOf(s, names[1..], keys)
  }

  /** The checks a call makes itself, `checkSig` or `checkMultiSig`. */
  function DirectChecks(s: Scope, c: CallSite): (r: seq<Check>)
  {
    if c.name == "checkSig" then
      match IdentifierOf(c.args, 0)
      case None => []
      case Some(x) =>
        match s.sigOf(x)
        case None => []
        case Some(sig) =>
          var k := if |c.args| > 1 then KeyIn(s, c.args[1]) else None;
          [Check(sig, match k case Some(key) => Some([key]) case None => None)]
    else if c.name == "checkMultiSig" then
      var names := if |c.args| > 0 && c.args[0].List? then Identifiers(c.args[0].items) else None;
      var keys := if |c.args| > 1 && c.args[1].List? then KeysIn(s, c.args[1].items) else None;
      match names case Some(xs) => ChecksOf(s, xs, keys) case None => []
    else []
  }

  /** The caller's identifier each parameter is bound to; a later parameter of one name replaces an earlier one. */
  function Bind(params: seq<Param>, args: seq<Node>): (r: map<string, Option<string>>)
  {
    if params == [] then map[]
    else
      var k := |params| - 1;
      Bind(params[..k], args)[params[k].name := IdentifierOf(args, k)]
  }

  /** The scope of a helper's body: parameters stand for the caller's arguments, other names for the contract's. */
  function HelperScope(bound: map<string, Option<string>>, outer: Scope, contract: string -> Option<Key>): (r: Scope)
  {
    Scope(
      (x: string) => if x in bound && bound[x].Some? then outer.sigOf(bound[x].value) else None,
      (x: string) => if x in bound then (if bound[x].Some? then outer.keyOf(bound[x].value) else None) else contract(x))
  }

  function HelperNames(c: Contract): (r: set<string>)
  {
    set f | f in c.functions && !f.entrypoint :: f.name
  }

  predicate Builtin(name: string)
  {
    name == "checkSig" || name == "checkMultiSig"
  }

  lemma Visiting(c: Contract, visiting: set<string>, h: string)
    requires FindHelper(c.functions, h).Some? && h !in visiting
    ensures |HelperNames(c) - (visiting + {h})| < |HelperNames(c) - visiting|
  {
    var f := FindHelper(c.functions, h).value;
    assert f.name in HelperNames(c);
    assert HelperNames(c) - (visiting + {h}) == HelperNames(c) - visiting - {h};
  }

  /** The checks a list of calls makes, in order, following helpers that are not already being visited. */
  function Checks(c: Contract, cs: seq<CallSite>, s: Scope, contract: string -> Option<Key>,
                  visiting: set<string>): (r: seq<Check>)
    decreases |HelperNames(c) - visiting|, |cs|
  {
    if cs == [] then []
    else
      var h := FindHelper(c.functions, cs[0].name);
      (if Builtin(cs[0].name) then DirectChecks(s, cs[0])
       else if h.None? || cs[0].name in visiting then []
       else
         Visiting(c, visiting, cs[0].name);
         Checks(c, Calls(h.value.body), HelperScope(Bind(h.value.params, cs[0].args), s, contract), contract,
                visiting + {cs[0].name}))
      + Checks(c, cs[1..], s, contract, visiting)
  }

  lemma ChecksOfNone(c: Contract, s: Scope, contract: string -> Option<Key>, visiting: set<string>)
    ensures Checks(c, [], s, contract, visiting) == []
  {
  }

  lemma ChecksCons(c: Contract, cs: seq<CallSite>, s: Scope, contract: string -> Option<Key>, visiting: set<string>)
    requires cs != []
    ensures Checks(c, cs, s, contract, visiting)
            == Checks(c, [cs[0]], s, contract, visiting) + Checks(c, cs[1..], s, contract, visiting)
  {
    hide DirectChecks, HelperScope, Bind, Calls, HelperNames, Builtin;
    assert [cs[0]][1..] == [];
    ChecksOfNone(c, s, contract, visiting);
  }

  lemma OneCall(c: Contract, call: CallSite, s: Scope, contract: string -> Option<Key>, visiting: set<string>)
    ensures Checks(c, [call], s, contract, visiting)
            == if Builtin(call.name) then DirectChecks(s, call)
               else if FindHelper(c.functions, call.name).None? || call.name in visiting then []
               else
                 var h := FindHelper(c.functions, call.name).value;
                 Checks(c, Calls(h.body), HelperScope(Bind(h.params, call.args), s, contract), contract,
                        visiting + {call.name})
  {
    hide DirectChecks, HelperScope, Bind, Calls, HelperNames, Builtin;
    assert [call][1..] == [] && Checks(c, [], s, contract, visiting) == [];
  }

  function ContractKeys(c: Contract, fn: Function, g: Given): (r: string -> Option<Key>)
  {
    x => KeyOfName(c, fn, g, x)
  }

  /** The scope of the top-level function. */
  function TopScope(c: Contract, fn: Function, g: Given): (r: Scope)
  {
    Scope((x: string) => if x in SigParams(fn.params) then Some(x) else None, ContractKeys(c, fn, g))
  }

  function TopChecks(c: Contract, fn: Function, g: Given): (r: seq<Check>)
  {
    Checks(c, Calls(fn.body), TopScope(c, fn, g), ContractKeys(c, fn, g), {fn.name})
  }

  // ----- what the checks say of one signature

  function KeysFor(checks: seq<Check>, sig: string): (r: seq<Key>)
  {
    if checks == [] then []
    else (if checks[0].sig == sig && checks[0].keys.Some? then checks[0].keys.value else []) + KeysFor(checks[1..], sig)
  }

  function Untold(checks: seq<Check>): (r: set<string>)
  {
    set e | e in checks && e.keys.None? :: e.sig
  }

  /** A list without its repetitions, in order of first occurrence. */
  function Distinct(ks: seq<Key>): (r: seq<Key>)
    ensures forall k :: k in r <==> k in ks
    ensures forall i, j :: 0 <= i < j < |r| ==> r[i] != r[j]
  {
    if ks == [] then []
    else
      var n := |ks| - 1;
      var front := Distinct(ks[..n]);
      assert ks == ks[..n] + [ks[n]];
      if ks[n] in front then front else front + [ks[n]]
  }

  /** The keys of one slot, or `None` when some check cannot be told or there is no check. */
  function SlotOf(checks: seq<Check>, sig: string): (r: Option<seq<Key>>)
  {
    if sig in Untold(checks) || KeysFor(checks, sig) == [] then None else Some(Distinct(KeysFor(checks, sig)))
  }

  function SlotsOf(c: Contract, fn: Function, g: Given): (r: map<string, Option<seq<Key>>>)
  {
    map sig | sig in SigParams(fn.params) :: SlotOf(TopChecks(c, fn, g), sig)
  }

  lemma {:induction false} KeysForAppend(a: seq<Check>, b: seq<Check>, sig: string)
    ensures KeysFor(a + b, sig) == KeysFor(a, sig) + KeysFor(b, sig)
  {
    if a == [] {
      assert a + b == b;
    } else {
      assert (a + b)[1..] == a[1..] + b;
      KeysForAppend(a[1..], b, sig);
    }
  }

  lemma UntoldAppend(a: seq<Check>, b: seq<Check>)
    ensures Untold(a + b) == Untold(a) + Untold(b)
  {
  }

  datatype Tables = Tables(out: map<string, seq<Key>>, unresolved: set<string>)

  /** The tables after hold what they held before and the given checks. */
  ghost predicate Grown(before: Tables, after: Tables, checks: seq<Check>)
  {
    && after.out.Keys == before.out.Keys
    && (forall s :: s in after.out ==> after.out[s] == before.out[s] + KeysFor(checks, s))
    && after.unresolved == before.unresolved + Untold(checks)
  }

  lemma GrownNone(t: Tables)
    ensures Grown(t, t, [])
  {
  }

  lemma GrownTwice(a: Tables, b: Tables, c: Tables, first: seq<Check>, second: seq<Check>)
    requires Grown(a, b, first) && Grown(b, c, second)
    ensures Grown(a, c, first + second)
  {
    hide KeysFor, Untold;
    UntoldAppend(first, second);
    forall s | s in c.out ensures c.out[s] == a.out[s] + KeysFor(first + second, s) {
      KeysForAppend(first, second, s);
    }
  }

  /** A scope resolves names only to the given signatures. */
  ghost predicate SigsWithin(s: Scope, sigs: set<string>)
  {
    forall x :: s.sigOf(x).Some? ==> s.sigOf(x).value in sigs
  }

  lemma HelperSigsWithin(bound: map<string, Option<string>>, outer: Scope, contract: string -> Option<Key>,
                         sigs: set<string>)
    requires SigsWithin(outer, sigs)
    ensures SigsWithin(HelperScope(bound, outer, contract), sigs)
  {
  }

  // ----- the walk, as it fills its two tables

  /** The keys gathered for each top-level signature and the signatures with a check that cannot be told. */
  class SlotScan {
    var out: map<string, seq<Key>>
    var unresolved: set<string>

    constructor (sigs: seq<string>)
      ensures out == map s | s in sigs :: []
      ensures unresolved == {}
    {
      out := map s | s in sigs :: [];
      unresolved := {};
    }

    ghost function Now(): Tables
      reads this
    {
      Tables(out, unresolved)
    }

    method Note(sig: string, keys: Option<seq<Key>>)
      requires sig in out
      modifies this
      ensures Grown(old(Now()), Now(), [Check(sig, keys)]) && out.Keys == old(out).Keys
    {
      assert [Check(sig, keys)][1..] == [];
      match keys {
        case None => unresolved := unresolved + {sig};
        case Some(ks) => out := out[sig := out[sig] + ks];
      }
    }

    method NoteAll(s: Scope, names: seq<string>, keys: Option<seq<Key>>)
      requires SigsWithin(s, out.Keys)
      modifies this
      ensures Grown(old(Now()), Now(), ChecksOf(s, names, keys)) && out.Keys == old(out).Keys
    {
      hide Grown, KeysFor, Untold;
      ghost var before := Now();
      ghost var done: seq<Check> := [];
      GrownNone(before);
      for k := 0 to |names|
        invariant out.Keys == before.out.Keys
        invariant done + ChecksOf(s, names[k..], keys) == ChecksOf(s, names, keys)
        invariant Grown(before, Now(), done)
      {
        assert names[k..][1..] == names[k + 1..];
        var sig := s.sigOf(names[k]);
        if sig.Some? {
          ghost var mid := Now();
          Note(sig.value, keys);
          GrownTwice(before, mid, Now(), done, [Check(sig.value, keys)]);
          done := done + [Check(sig.value, keys)];
        }
      }
      assert names[|names|..] == [];
      assert done == ChecksOf(s, names, keys);
    }

    /** Walk a body's calls: the tables grow by exactly the checks those calls make. */
    method Walk(c: Contract, body: Node, s: Scope, contract: string -> Option<Key>, visiting: set<string>)
      requires SigsWithin(s, out.Keys)
      modifies this
      ensures Grown(old(Now()), Now(), Checks(c, Calls(body), s, contract, visiting)) && out.Keys == old(out).Keys
      decreases |HelperNames(c) - visiting|, 1
    {
      hide Grown, KeysFor, Untold, SigsWithin, Calls, Checks, HelperNames;
      var cs := Calls(body);
      ghost var before := Now();
      ghost var done: seq<Check> := [];
      GrownNone(before);
      for i := 0 to |cs|
        invariant out.Keys == before.out.Keys
        invariant done + Checks(c, cs[i..], s, contract, visiting) == Checks(c, cs, s, contract, visiting)
        invariant Grown(before, Now(), done)
      {
        assert cs[i..][0] == cs[i] && cs[i..][1..] == cs[i + 1..];
        ChecksCons(c, cs[i..], s, contract, visiting);
        ghost var mid := Now();
        VisitCall(c, cs[i], s, contract, visiting);
        GrownTwice(before, mid, Now(), done, Checks(c, [cs[i]], s, contract, visiting));
        done := done + Checks(c, [cs[i]], s, contract, visiting);
      }
      assert cs[|cs|..] == [];
      ChecksOfNone(c, s, contract, visiting);
      assert done == Checks(c, cs, s, contract, visiting);
    }

    /** One call: a check of its own, or a helper that is followed. */
    method VisitCall(c: Contract, call: CallSite, s: Scope, contract: string -> Option<Key>, visiting: set<string>)
      requires SigsWithin(s, out.Keys)
      modifies this
      ensures Grown(old(Now()), Now(), Checks(c, [call], s, contract, visiting)) && out.Keys == old(out).Keys
      decreases |HelperNames(c) - visiting|, 0
    {
      hide Grown, KeysFor, Untold, SigsWithin, HelperScope, Builtin, Calls, Bind, DirectChecks, HelperNames, Checks;
      OneCall(c, call, s, contract, visiting);
      GrownNone(Now());
      if Builtin(call.name) {
        CheckCall(s, call);
      } else {
        var h := FindHelper(c.functions, call.name);
        if h.Some? && call.name !in visiting {
          Visiting(c, visiting, call.name);
          var inner := HelperScope(Bind(h.value.params, call.args), s, contract);
          HelperSigsWithin(Bind(h.value.params, call.args), s, contract, out.Keys);
          Walk(c, h.value.body, inner, contract, visiting + {call.name});
        }
      }
    }

    method CheckCall(s: Scope, call: CallSite)
      requires Builtin(call.name)
      requires SigsWithin(s, out.Keys)
      modifies this
      ensures Grown(old(Now()), Now(), DirectChecks(s, call)) && out.Keys == old(out).Keys
    {
      if call.name == "checkSig" {
        var x := IdentifierOf(call.args, 0);
        var sig := if x.Some? then s.sigOf(x.value) else None;
        if sig.None? { return; }
        var k := if |call.args| > 1 then KeyIn(s, call.args[1]) else None;
        Note(sig.value, if k.Some? then Some([k.value]) else None);
      } else {
        var names := if |call.args| > 0 && call.args[0].List? then Identifiers(call.args[0].items) else None;
        var keys := if |call.args| > 1 && call.args[1].List? then KeysIn(s, call.args[1].items) else None;
        if names.Some? { NoteAll(s, names.value, keys); }
      }
    }
  }

  /** silverSignatureSlotKeys: each signature's slot, told by all the checks the function reaches. */
  method SilverSignatureSlotKeys(c: Contract, name: string, g: Given) returns (r: map<string, Option<seq<Key>>>)
    ensures match FindFunction(c.functions, name)
            case None => r == map[]
            case Some(fn) => r == SlotsOf(c, fn, g)
  {
    var found := FindFunction(c.functions, name);
    if found.None? { return map[]; }
    var fn := found.value;
    var scan := new SlotScan(SigParams(fn.params));
    scan.Walk(c, fn.body, TopScope(c, fn, g), ContractKeys(c, fn, g), {fn.name});
    ghost var checks := TopChecks(c, fn, g);
    assert forall s :: s in scan.out ==> scan.out[s] == KeysFor(checks, s);
    r := map sig | sig in SigParams(fn.params) ::
      if sig in scan.unresolved || scan.out[sig] == [] then None else Some(Distinct(scan.out[sig]));
  }
}
