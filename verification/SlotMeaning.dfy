/**
 * What the signature-slot analysis means, said without its walk: which key a name of the source stands for, which
 * checks a call makes, that a check is counted exactly when a chain of calls leads to it, and that a slot whose names
 * the spent state decides does not depend on how the contract was constructed.
 */
module SlotMeaning {
  import opened Common
  import Covenant
  import opened SlotKeys
  import opened Inlining

  // ----- the key a name stands for

  /** The value is a 32-byte key. */
  predicate IsKey(v: Covenant.Sil, key: Key)
  {
    v == Covenant.Bytes(key) && |key| == 32
  }

  /** The first constructor parameter of that name was given this key. */
  ghost predicate GivenKey(c: Contract, g: Given, name: string, key: Key)
  {
    exists i :: 0 <= i < |c.params| && c.params[i] == name && name !in c.params[..i]
                && i < |g.ctorArgs| && IsKey(g.ctorArgs[i], key)
  }

  /** The first field, or parameter, of that name. */
  ghost predicate FirstField(fs: seq<Field>, name: string, f: Field)
  {
    exists i :: 0 <= i < |fs| && fs[i] == f && f.name == name && forall j :: 0 <= j < i ==> fs[j].name != name
  }

  ghost predicate FirstParam(ps: seq<Param>, name: string, p: Param)
  {
    exists i :: 0 <= i < |ps| && ps[i] == p && p.name == name && forall j :: 0 <= j < i ==> ps[j].name != name
  }

  /** The spent state gives a value under this name. */
  predicate InState(g: Given, name: string)
  {
    g.state.Some? && name in g.state.value
  }

  ghost predicate FieldStandsFor(c: Contract, g: Given, f: Field, key: Key)
  {
    if InState(g, f.name) then IsKey(g.state.value[f.name], key) else f.init.Name? && GivenKey(c, g, f.init.id, key)
  }

  ghost predicate ArgumentStandsFor(fn: Function, g: Given, name: string, key: Key)
  {
    && (exists p :: FirstParam(fn.params, name, p) && p.base == "pubkey")
    && name in g.fnArgs && IsKey(g.fnArgs[name], key)
  }

  /**
   * The key a name stands for: a constructor parameter's argument before anything else; then a field's value in the
   * state that is spent, or, when the state has none, the argument of the parameter that initialises it; last, the
   * argument of a `pubkey` parameter of the function.
   */
  ghost predicate StandsFor(c: Contract, fn: Function, g: Given, name: string, key: Key)
  {
    || (name in c.params && GivenKey(c, g, name, key))
    || (name !in c.params && exists f :: FirstField(c.fields, name, f) && FieldStandsFor(c, g, f, key))
    || (name !in c.params && (forall f :: f in c.fields ==> f.name != name) && ArgumentStandsFor(fn, g, name, key))
  }

  lemma CtorExact(c: Contract, g: Given, name: string, key: Key)
    ensures (match Covenant.IndexOf(c.params, name) case Some(i) => CtorKey(g, i) case None => None) == Some(key) <==>
              GivenKey(c, g, name, key)
    ensures GivenKey(c, g, name, key) ==> name in c.params
  {
    Covenant.FirstIndex(c.params, name);
  }

  lemma {:induction false} FieldExact(fs: seq<Field>, name: string, f: Field)
    ensures FindField(fs, name) == Some(f) <==> FirstField(fs, name, f)
  {
    if fs != [] && fs[0].name != name {
      FieldExact(fs[1..], name, f);
      if FirstField(fs[1..], name, f) {
        var i :| 0 <= i < |fs[1..]| && fs[1..][i] == f && forall j :: 0 <= j < i ==> fs[1..][j].name != name;
        assert fs[i + 1] == f && forall j :: 0 <= j < i + 1 ==> j == 0 || fs[j] == fs[1..][j - 1];
      }
      if FirstField(fs, name, f) {
        var i :| 0 <= i < |fs| && fs[i] == f && forall j :: 0 <= j < i ==> fs[j].name != name;
        assert fs[1..][i - 1] == f && forall j :: 0 <= j < i - 1 ==> fs[1..][j] == fs[j + 1];
      }
    }
  }

  lemma {:induction false} ParamExact(ps: seq<Param>, name: string, p: Param)
    ensures FindParam(ps, name) == Some(p) <==> FirstParam(ps, name, p)
  {
    if ps != [] && ps[0].name != name {
      ParamExact(ps[1..], name, p);
      if FirstParam(ps[1..], name, p) {
        var i :| 0 <= i < |ps[1..]| && ps[1..][i] == p && forall j :: 0 <= j < i ==> ps[1..][j].name != name;
        assert ps[i + 1] == p && forall j :: 0 <= j < i + 1 ==> j == 0 || ps[j] == ps[1..][j - 1];
      }
      if FirstParam(ps, name, p) {
        var i :| 0 <= i < |ps| && ps[i] == p && forall j :: 0 <= j < i ==> ps[j].name != name;
        assert ps[1..][i - 1] == p && forall j :: 0 <= j < i - 1 ==> ps[1..][j] == ps[j + 1];
      }
    }
  }

  lemma KeyBytesExact(v: Covenant.Sil, key: Key)
    ensures KeyBytes(v) == Some(key) <==> IsKey(v, key)
  {
  }

  lemma NameInParams(c: Contract, name: string)
    ensures Covenant.IndexOf(c.params, name).Some? <==> name in c.params
  {
  }

  lemma ConstructorKey(c: Contract, fn: Function, g: Given, name: string, key: Key)
    requires name in c.params
    ensures KeyOfName(c, fn, g, name) == Some(key) <==> GivenKey(c, g, name, key)
  {
    hide GivenKey, CtorKey, Covenant.IndexOf;
    CtorExact(c, g, name, key);
    NameInParams(c, name);
  }

  lemma FieldKey(c: Contract, fn: Function, g: Given, name: string, key: Key, f: Field)
    requires name !in c.params && FirstField(c.fields, name, f)
    ensures KeyOfName(c, fn, g, name) == Some(key) <==> FieldStandsFor(c, g, f, key)
  {
    hide GivenKey, CtorKey, Covenant.IndexOf, IsKey, KeyBytes;
    NameInParams(c, name);
    FieldExact(c.fields, name, f);
    if InState(g, name) { KeyBytesExact(g.state.value[name], key); }
    if f.init.Name? { CtorExact(c, g, f.init.id, key); }
  }

  lemma ArgumentKey(c: Contract, fn: Function, g: Given, name: string, key: Key)
    requires name !in c.params && forall f :: f in c.fields ==> f.name != name
    ensures KeyOfName(c, fn, g, name) == Some(key) <==> ArgumentStandsFor(fn, g, name, key)
  {
    hide Covenant.IndexOf, IsKey, KeyBytes, FirstParam;
    NameInParams(c, name);
    if name in g.fnArgs { KeyBytesExact(g.fnArgs[name], key); }
    forall p ensures FindParam(fn.params, name) == Some(p) <==> FirstParam(fn.params, name, p) {
      ParamExact(fn.params, name, p);
    }
    assert FindField(c.fields, name).None?;
  }

  /** keyOfName gives a name exactly the key it stands for. */
  lemma KeyOfNameExact(c: Contract, fn: Function, g: Given, name: string, key: Key)
    ensures KeyOfName(c, fn, g, name) == Some(key) <==> StandsFor(c, fn, g, name, key)
  {
    hide GivenKey, IsKey, FirstParam, KeyOfName, FieldStandsFor, ArgumentStandsFor;
    if name in c.params {
      ConstructorKey(c, fn, g, name, key);
    } else if FindField(c.fields, name).Some? {
      var f := FindField(c.fields, name).value;
      FieldExact(c.fields, name, f);
      FieldKey(c, fn, g, name, key, f);
      forall h | FirstField(c.fields, name, h) ensures h == f { FieldExact(c.fields, name, h); }
    } else {
      ArgumentKey(c, fn, g, name, key);
      forall h ensures !FirstField(c.fields, name, h) { FieldExact(c.fields, name, h); }
    }
  }

  // ----- the checks a call makes

  /** The expression names a key by this name: `x` or `pubkey(x)`. */
  predicate NamesKey(e: Node, x: string)
  {
    e == Name(x) || e == Call("pubkey", [Name(x)])
  }

  /** The expressions name these keys, one each, in order. */
  ghost predicate NameKeys(s: Scope, items: seq<Node>, keys: seq<Key>)
  {
    |keys| == |items| && forall i :: 0 <= i < |items| ==>
      exists x :: NamesKey(items[i], x) && s.keyOf(x) == Some(keys[i])
  }

  /** What a key argument, or a list of them, says: exactly these keys, or nothing that can be told. */
  ghost predicate Tells(s: Scope, items: seq<Node>, keys: Option<seq<Key>>)
  {
    match keys
    case Some(ks) => NameKeys(s, items, ks)
    case None => forall ks :: !NameKeys(s, items, ks)
  }

  /** `checkSig(x, e)`, or `checkMultiSig([.., x, ..], [..])`, checks what `x` stands for against what the keys say. */
  ghost predicate MakesCheck(s: Scope, call: CallSite, e: Check)
  {
    || (&& call.name == "checkSig" && |call.args| > 0
        && (exists x :: call.args[0] == Name(x) && s.sigOf(x) == Some(e.sig))
        && (if |call.args| > 1 then Tells(s, [call.args[1]], e.keys) else e.keys.None?))
    || (&& call.name == "checkMultiSig" && |call.args| > 0 && call.args[0].List?
        && (forall n :: n in call.args[0].items ==> n.Name?)
        && (exists x :: Name(x) in call.args[0].items && s.sigOf(x) == Some(e.sig))
        && (if |call.args| > 1 && call.args[1].List? then Tells(s, call.args[1].items, e.keys) else e.keys.None?))
  }

  lemma KeyExprExact(e: Node, x: string)
    ensures KeyExpr(e) == Some(x) <==> NamesKey(e, x)
  {
    if e.Call? && |e.args| == 1 { assert e.args == [e.args[0]]; }
  }

  lemma KeyInExact(s: Scope, e: Node, k: Key)
    ensures KeyIn(s, e) == Some(k) <==> exists x :: NamesKey(e, x) && s.keyOf(x) == Some(k)
  {
    hide KeyExpr, NamesKey;
    forall x ensures KeyExpr(e) == Some(x) <==> NamesKey(e, x) { KeyExprExact(e, x); }
  }

  lemma {:induction false} KeysInExact(s: Scope, items: seq<Node>, ks: seq<Key>)
    ensures KeysIn(s, items) == Some(ks) <==> NameKeys(s, items, ks)
  {
    hide KeyIn, NamesKey;
    if items != [] {
      forall k ensures KeyIn(s, items[0]) == Some(k) <==> exists x :: NamesKey(items[0], x) && s.keyOf(x) == Some(k) {
        KeyInExact(s, items[0], k);
      }
      if ks != [] {
        KeysInExact(s, items[1..], ks[1..]);
        assert forall i :: 0 < i < |items| ==> items[i] == items[1..][i - 1];
        assert forall i :: 0 < i < |ks| ==> ks[i] == ks[1..][i - 1];
        assert ks == [ks[0]] + ks[1..];
        NameKeysSplit(s, items, ks);
      }
    }
  }

  lemma NameKeysSplit(s: Scope, items: seq<Node>, ks: seq<Key>)
    requires items != [] && ks != []
    ensures NameKeys(s, items, ks) <==>
              (exists x :: NamesKey(items[0], x) && s.keyOf(x) == Some(ks[0])) && NameKeys(s, items[1..], ks[1..])
  {
    hide NamesKey;
    if NameKeys(s, items, ks) {
      forall i | 0 <= i < |items[1..]|
        ensures exists x :: NamesKey(items[1..][i], x) && s.keyOf(x) == Some(ks[1..][i]) {
        assert items[1..][i] == items[i + 1] && ks[1..][i] == ks[i + 1];
      }
    }
    if (exists x :: NamesKey(items[0], x) && s.keyOf(x) == Some(ks[0])) && NameKeys(s, items[1..], ks[1..]) {
      forall i | 0 <= i < |items| ensures exists x :: NamesKey(items[i], x) && s.keyOf(x) == Some(ks[i]) {
        if i > 0 { assert items[1..][i - 1] == items[i] && ks[1..][i - 1] == ks[i]; }
      }
    }
  }

  lemma TellsExact(s: Scope, items: seq<Node>, keys: Option<seq<Key>>)
    ensures KeysIn(s, items) == keys <==> Tells(s, items, keys)
  {
    hide NameKeys, KeysIn;
    forall ks ensures KeysIn(s, items) == Some(ks) <==> NameKeys(s, items, ks) { KeysInExact(s, items, ks); }
  }

  lemma OneKeyExact(s: Scope, e: Node, keys: Option<seq<Key>>)
    ensures (match KeyIn(s, e) case Some(key) => Some([key]) case None => None) == keys <==> Tells(s, [e], keys)
  {
    hide Tells;
    TellsExact(s, [e], keys);
    assert [e][1..] == [] && KeysIn(s, []) == Some([]);
    if KeyIn(s, e).Some? { assert [KeyIn(s, e).value] + [] == [KeyIn(s, e).value]; }
  }

  lemma {:induction false} IdentifiersExact(items: seq<Node>)
    ensures Identifiers(items).Some? <==> forall n :: n in items ==> n.Name?
    ensures Identifiers(items).Some? ==> forall x :: x in Identifiers(items).value <==> Name(x) in items
  {
    if items != [] {
      IdentifiersExact(items[1..]);
      assert forall n :: n in items <==> n == items[0] || n in items[1..];
    }
  }

  lemma {:induction false} ChecksOfExact(s: Scope, names: seq<string>, keys: Option<seq<Key>>, e: Check)
    ensures e in ChecksOf(s, names, keys) <==> e.keys == keys && exists x :: x in names && s.sigOf(x) == Some(e.sig)
  {
    if names != [] {
      ChecksOfExact(s, names[1..], keys, e);
      assert forall x :: x in names <==> x == names[0] || x in names[1..];
    }
  }

  /** A call makes exactly the checks it is written to make. */
  lemma DirectChecksExact(s: Scope, call: CallSite, e: Check)
    ensures e in DirectChecks(s, call) <==> MakesCheck(s, call, e)
  {
    hide Tells, KeyIn, KeysIn, ChecksOf, Identifiers;
    assert "checkSig" != "checkMultiSig" by { assert |"checkSig"| == 8 && |"checkMultiSig"| == 13; }
    if call.name == "checkSig" {
      if |call.args| > 1 { OneKeyExact(s, call.args[1], e.keys); }
    } else if call.name == "checkMultiSig" && |call.args| > 0 && call.args[0].List? {
      IdentifiersExact(call.args[0].items);
      var keys := if |call.args| > 1 && call.args[1].List? then KeysIn(s, call.args[1].items) else None;
      if |call.args| > 1 && call.args[1].List? { TellsExact(s, call.args[1].items, e.keys); }
      if Identifiers(call.args[0].items).Some? { ChecksOfExact(s, Identifiers(call.args[0].items).value, keys, e); }
    }
  }

  // ----- the calls of a body, and the chains of calls that lead to a check

  /** The node is the other, or stands somewhere inside it. */
  ghost predicate Inside(m: Node, n: Node)
    decreases n
  {
    m == n || match n
              case Name(_) => false
              case Call(_, args) => exists i :: 0 <= i < |args| && Inside(m, args[i])
              case List(items) => exists i :: 0 <= i < |items| && Inside(m, items[i])
              case Block(parts) => exists i :: 0 <= i < |parts| && Inside(m, parts[i])
  }

  lemma {:induction false} CallsExact(n: Node, call: CallSite)
    ensures call in Calls(n) <==> Inside(Call(call.name, call.args), n)
    decreases n
  {
    match n
    case Name(_) =>
    case Call(name, args) => CallsAllExact(args, call);
    case List(items) => CallsAllExact(items, call);
    case Block(parts) => CallsAllExact(parts, call);
  }

  lemma {:induction false} CallsAllExact(ns: seq<Node>, call: CallSite)
    ensures call in CallsAll(ns) <==> exists i :: 0 <= i < |ns| && Inside(Call(call.name, call.args), ns[i])
    decreases ns
  {
    if ns != [] {
      CallsExact(ns[0], call);
      CallsAllExact(ns[1..], call);
      assert forall i :: 0 < i < |ns| ==> ns[i] == ns[1..][i - 1];
      if i :| 0 <= i < |ns[1..]| && Inside(Call(call.name, call.args), ns[1..][i]) {
        assert Inside(Call(call.name, call.args), ns[i + 1]);
      }
    }
  }

  /** The last parameter of a name is bound to the argument at its position, when that is a name. */
  lemma {:induction false} BindExact(params: seq<Param>, args: seq<Node>, x: string, i: nat)
    requires i < |params| && params[i].name == x && forall j :: i < j < |params| ==> params[j].name != x
    ensures x in Bind(params, args)
    ensures Bind(params, args)[x] == if i < |args| && args[i].Name? then Some(args[i].id) else None
  {
    var k := |params| - 1;
    if i < k { BindExact(params[..k], args, x, i); }
  }

  lemma {:induction false} BindKeys(params: seq<Param>, args: seq<Node>, x: string)
    ensures x in Bind(params, args) <==> exists p :: p in params && p.name == x
  {
    if params != [] {
      var k := |params| - 1;
      BindKeys(params[..k], args, x);
      assert params == params[..k] + [params[k]];
    }
  }

  /**
   * A chain of calls leads from a body to a check: each call stands in the body before it, all but the last are of
   * helpers not yet on the chain, whose parameters stand for the caller's arguments, and the last makes the check.
   */
  ghost predicate LeadsTo(c: Contract, body: Node, s: Scope, contract: string -> Option<Key>, visiting: set<string>,
                          chain: seq<CallSite>, e: Check)
    decreases |chain|
  {
    chain != [] && Inside(Call(chain[0].name, chain[0].args), body) &&
    var call := chain[0];
    if |chain| == 1 then Builtin(call.name) && MakesCheck(s, call, e)
    else
      var h := FindHelper(c.functions, call.name);
      !Builtin(call.name) && h.Some? && call.name !in visiting
      && LeadsTo(c, h.value.body, HelperScope(Bind(h.value.params, call.args), s, contract), contract,
                 visiting + {call.name}, chain[1..], e)
  }

  ghost predicate Chained(c: Contract, body: Node, s: Scope, contract: string -> Option<Key>, visiting: set<string>,
                          e: Check)
  {
    exists chain :: LeadsTo(c, body, s, contract, visiting, chain, e)
  }

  /** The checks of a list of calls are those of each. */
  lemma {:induction false} ChecksByCall(c: Contract, cs: seq<CallSite>, s: Scope, contract: string -> Option<Key>,
                                        visiting: set<string>, e: Check)
    ensures e in Checks(c, cs, s, contract, visiting) <==>
              exists i :: 0 <= i < |cs| && e in Checks(c, [cs[i]], s, contract, visiting)
    decreases |cs|
  {
    hide Checks;
    if cs == [] {
      ChecksOfNone(c, s, contract, visiting);
    } else {
      ChecksByCall(c, cs[1..], s, contract, visiting, e);
      ChecksCons(c, cs, s, contract, visiting);
      assert forall i :: 0 < i < |cs| ==> cs[i] == cs[1..][i - 1];
      if i :| 0 <= i < |cs[1..]| && e in Checks(c, [cs[1..][i]], s, contract, visiting) {
        assert e in Checks(c, [cs[i + 1]], s, contract, visiting);
      }
    }
  }

  /** A check is counted exactly when a chain of calls leads to it. */
  lemma {:induction false} ChecksExact(c: Contract, body: Node, s: Scope, contract: string -> Option<Key>,
                                       visiting: set<string>, e: Check)
    ensures e in Checks(c, Calls(body), s, contract, visiting) <==> Chained(c, body, s, contract, visiting, e)
    decreases |HelperNames(c) - visiting|
  {
    hide Checks, DirectChecks, MakesCheck, HelperScope, Bind, Calls, Builtin, HelperNames, Inside;
    ChecksByCall(c, Calls(body), s, contract, visiting, e);
    if e in Checks(c, Calls(body), s, contract, visiting) {
      var i :| 0 <= i < |Calls(body)| && e in Checks(c, [Calls(body)[i]], s, contract, visiting);
      var call := Calls(body)[i];
      CallsExact(body, call);
      OneCall(c, call, s, contract, visiting);
      if Builtin(call.name) {
        DirectChecksExact(s, call, e);
        assert LeadsTo(c, body, s, contract, visiting, [call], e);
      } else {
        var h := FindHelper(c.functions, call.name).value;
        Visiting(c, visiting, call.name);
        var inner := HelperScope(Bind(h.params, call.args), s, contract);
        ChecksExact(c, h.body, inner, contract, visiting + {call.name}, e);
        var rest :| LeadsTo(c, h.body, inner, contract, visiting + {call.name}, rest, e);
        LeadsOn(c, body, s, contract, visiting, call, rest, e);
      }
    }
    if chain: seq<CallSite> :| LeadsTo(c, body, s, contract, visiting, chain, e) {
      CallsExact(body, chain[0]);
      OneCall(c, chain[0], s, contract, visiting);
      LeadsFrom(c, body, s, contract, visiting, chain, e);
      if |chain| == 1 {
        DirectChecksExact(s, chain[0], e);
      } else {
        var h := FindHelper(c.functions, chain[0].name).value;
        Visiting(c, visiting, chain[0].name);
        ChecksExact(c, h.body, HelperScope(Bind(h.params, chain[0].args), s, contract), contract,
                    visiting + {chain[0].name}, e);
      }
      var i :| 0 <= i < |Calls(body)| && Calls(body)[i] == chain[0];
    }
  }

  lemma LeadsFrom(c: Contract, body: Node, s: Scope, contract: string -> Option<Key>, visiting: set<string>,
                  chain: seq<CallSite>, e: Check)
    requires LeadsTo(c, body, s, contract, visiting, chain, e)
    ensures chain != [] && Inside(Call(chain[0].name, chain[0].args), body)
    ensures |chain| == 1 ==> Builtin(chain[0].name) && MakesCheck(s, chain[0], e)
    ensures |chain| > 1 ==>
              && !Builtin(chain[0].name) && FindHelper(c.functions, chain[0].name).Some? && chain[0].name !in visiting
              && var h := FindHelper(c.functions, chain[0].name).value;
              LeadsTo(c, h.body, HelperScope(Bind(h.params, chain[0].args), s, contract), contract,
                      visiting + {chain[0].name}, chain[1..], e)
  {
    hide MakesCheck, HelperScope, Bind, Builtin, Inside;
  }

  lemma LeadsOn(c: Contract, body: Node, s: Scope, contract: string -> Option<Key>, visiting: set<string>,
                call: CallSite, rest: seq<CallSite>, e: Check)
    requires Inside(Call(call.name, call.args), body) && !Builtin(call.name)
    requires FindHelper(c.functions, call.name).Some? && call.name !in visiting
    requires var h := FindHelper(c.functions, call.name).value;
             LeadsTo(c, h.body, HelperScope(Bind(h.params, call.args), s, contract), contract, visiting + {call.name},
                     rest, e)
    ensures LeadsTo(c, body, s, contract, visiting, [call] + rest, e)
  {
    hide MakesCheck, HelperScope, Bind, Builtin, Inside;
    assert ([call] + rest)[1..] == rest && rest != [];
  }

  // ----- what a slot means

  lemma {:induction false} SigParamsExact(ps: seq<Param>, x: string)
    ensures x in SigParams(ps) <==> Param(x, "sig") in ps
  {
    if ps != [] {
      SigParamsExact(ps[1..], x);
      assert forall p :: p in ps <==> p == ps[0] || p in ps[1..];
    }
  }

  /** A chain of calls leads from the function to this check. */
  ghost predicate Reaches(c: Contract, fn: Function, g: Given, e: Check)
  {
    Chained(c, fn.body, TopScope(c, fn, g), ContractKeys(c, fn, g), {fn.name}, e)
  }

  /**
   * A signature's slot is refused exactly when some chain of calls leads to a check of it whose keys cannot be told, or
   * none leads to one that names a key; otherwise it holds exactly the keys such checks name.
   */
  lemma SlotMeans(c: Contract, fn: Function, g: Given, sig: string)
    requires sig in SigParams(fn.params)
    ensures sig in SlotsOf(c, fn, g)
    ensures SlotsOf(c, fn, g)[sig].None? <==>
              || (exists e :: Reaches(c, fn, g, e) && e.sig == sig && e.keys.None?)
              || (forall e, k :: Reaches(c, fn, g, e) && e.sig == sig && e.keys.Some? ==> k !in e.keys.value)
    ensures SlotsOf(c, fn, g)[sig].Some? ==>
              forall k :: k in SlotsOf(c, fn, g)[sig].value <==>
                exists e :: Reaches(c, fn, g, e) && e.sig == sig && e.keys.Some? && k in e.keys.value
  {
    hide TopChecks, Reaches, SlotOf;
    var checks := TopChecks(c, fn, g);
    forall e ensures e in checks <==> Reaches(c, fn, g, e) { ReachesExact(c, fn, g, e); }
    SlotExact(checks, sig);
  }

  lemma ReachesExact(c: Contract, fn: Function, g: Given, e: Check)
    ensures e in TopChecks(c, fn, g) <==> Reaches(c, fn, g, e)
  {
    hide TopScope, ContractKeys, MakesCheck, HelperScope, Bind, Builtin, DirectChecks, HelperNames;
    ChecksExact(c, fn.body, TopScope(c, fn, g), ContractKeys(c, fn, g), {fn.name}, e);
  }

  // ----- slots the spent state decides

  /** The helpers' own names mean the same to both. */
  ghost predicate SameContract(c: Contract, p: string -> Option<Key>, q: string -> Option<Key>)
  {
    forall f, x :: f in c.functions && !f.entrypoint && x in NamesIn(f.body) ==> p(x) == q(x)
  }

  lemma HelperScopesAgree(names: set<string>, s: Scope, t: Scope, h: Function, args: seq<Node>, c: Contract,
                          p: string -> Option<Key>, q: string -> Option<Key>)
    requires Agree(names, map[], s, t) && NamesInAll(args) <= names
    requires SameContract(c, p, q) && h in c.functions && !h.entrypoint
    ensures Agree(NamesIn(h.body), map[], HelperScope(Bind(h.params, args), s, p),
                  HelperScope(Bind(h.params, args), t, q))
  {
    hide Bind, RenameAll, NamesInAll, NamesIn;
    RenameNothingAll(args);
    forall x | x in NamesIn(h.body)
      ensures var a, b := HelperScope(Bind(h.params, args), s, p), HelperScope(Bind(h.params, args), t, q);
              a.sigOf(x) == b.sigOf(Rn(map[], x)) && a.keyOf(x) == b.keyOf(Rn(map[], x))
    {
      BindRenamed(map[], h.params, args, x);
    }
  }

  /** Scopes that agree on the names a body and the helpers mention find the same checks. */
  lemma {:induction false} SameChecks(c: Contract, cs: seq<CallSite>, names: set<string>, s: Scope, t: Scope,
                                      p: string -> Option<Key>, q: string -> Option<Key>, visiting: set<string>)
    requires Within(cs, names) && Agree(names, map[], s, t) && SameContract(c, p, q)
    ensures Checks(c, cs, s, p, visiting) == Checks(c, cs, t, q, visiting)
    decreases |HelperNames(c) - visiting|, |cs|
  {
    hide Agree, HelperScope, Bind, DirectChecks, HelperNames, Builtin, NamesIn, NamesInAll, RenameAll, Calls,
         SameContract;
    if cs != [] {
      var call := cs[0];
      assert NamesInAll(cs[0].args) <= names;
      SameChecks(c, cs[1..], names, s, t, p, q, visiting);
      RenameNothingAll(call.args);
      DirectRenamed(names, map[], s, t, call);
      var h := FindHelper(c.functions, call.name);
      if h.Some? && call.name !in visiting {
        Visiting(c, visiting, call.name);
        HelperScopesAgree(names, s, t, h.value, call.args, c, p, q);
        CallsWithin(h.value.body, NamesIn(h.value.body));
        SameChecks(c, Calls(h.value.body), NamesIn(h.value.body), HelperScope(Bind(h.value.params, call.args), s, p),
                   HelperScope(Bind(h.value.params, call.args), t, q), p, q, visiting + {call.name});
      }
    }
  }

  /** The name means the same whatever the constructor was given: no parameter of it, and no field the state lacks. */
  ghost predicate Settled(c: Contract, g: Given, x: string)
  {
    x !in c.params && forall f :: f in c.fields && f.name == x ==> InState(g, x)
  }

  lemma SettledKey(c: Contract, fn: Function, g: Given, h: Given, x: string)
    requires g.fnArgs == h.fnArgs && g.state == h.state && Settled(c, g, x)
    ensures KeyOfName(c, fn, g, x) == KeyOfName(c, fn, h, x)
  {
    hide KeyBytes, CtorKey;
    NameInParams(c, x);
  }

  /**
   * When the body and the helpers mention only names the constructor does not decide (a field, then, only with its
   * value in the spent state), the slots are the same for all constructor arguments: those of the state that is spent,
   * never those of the one the contract began with.
   */
  lemma StateDecidesSlots(c: Contract, fn: Function, g: Given, h: Given)
    requires g.fnArgs == h.fnArgs && g.state == h.state
    requires forall x :: x in NamesIn(fn.body) ==> Settled(c, g, x)
    requires forall f, x :: f in c.functions && !f.entrypoint && x in NamesIn(f.body) ==> Settled(c, g, x)
    ensures SlotsOf(c, fn, g) == SlotsOf(c, fn, h)
  {
    hide Checks, Calls, SlotOf, KeyOfName, Settled;
    forall x | Settled(c, g, x) ensures KeyOfName(c, fn, g, x) == KeyOfName(c, fn, h, x) {
      SettledKey(c, fn, g, h, x);
    }
    CallsWithin(fn.body, NamesIn(fn.body));
    SameChecks(c, Calls(fn.body), NamesIn(fn.body), TopScope(c, fn, g), TopScope(c, fn, h), ContractKeys(c, fn, g),
               ContractKeys(c, fn, h), {fn.name});
  }

  // ----- which function a name means

  /** The first function of that name. */
  lemma {:induction false} FunctionExact(fs: seq<Function>, name: string, f: Function)
    ensures FindFunction(fs, name) == Some(f) <==>
              exists i :: 0 <= i < |fs| && fs[i] == f && f.name == name && NotBefore(fs, name, i, false)
  {
    if fs != [] && fs[0].name != name {
      FunctionExact(fs[1..], name, f);
      if i :| 0 <= i < |fs[1..]| && fs[1..][i] == f && f.name == name && NotBefore(fs[1..], name, i, false) {
        assert fs[i + 1] == f && NotBefore(fs, name, i + 1, false);
      }
      if i :| 0 <= i < |fs| && fs[i] == f && f.name == name && NotBefore(fs, name, i, false) {
        assert fs[1..][i - 1] == f && NotBefore(fs[1..], name, i - 1, false);
      }
    } else if fs != [] {
      assert NotBefore(fs, name, 0, false);
    }
  }

  /** No earlier function has the name; or, of helpers, no earlier one that is not an entry. */
  ghost predicate NotBefore(fs: seq<Function>, name: string, i: int, helpers: bool)
    requires i <= |fs|
  {
    forall j :: 0 <= j < i ==> fs[j].name != name || (helpers && fs[j].entrypoint)
  }

  ghost predicate FirstHelper(fs: seq<Function>, name: string, f: Function, i: int)
  {
    0 <= i < |fs| && fs[i] == f && f.name == name && !f.entrypoint && NotBefore(fs, name, i, true)
  }

  /** The first function of that name that is not an entry. */
  lemma {:induction false} HelperExact(fs: seq<Function>, name: string, f: Function)
    ensures FindHelper(fs, name) == Some(f) <==> exists i :: FirstHelper(fs, name, f, i)
  {
    if fs != [] && (fs[0].name != name || fs[0].entrypoint) {
      HelperExact(fs[1..], name, f);
      if i :| FirstHelper(fs[1..], name, f, i) { assert FirstHelper(fs, name, f, i + 1); }
      if i :| FirstHelper(fs, name, f, i) { assert FirstHelper(fs[1..], name, f, i - 1); }
    } else if fs != [] {
      assert NotBefore(fs, name, 0, true);
      if fs[0] == f { assert FirstHelper(fs, name, f, 0); }
    }
  }
}
