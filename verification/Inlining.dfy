/**
 * Inlining the helpers of a contract function, and the agreement of the signature-slot walk with it: for non-recursive
 * helpers that mention no signature of the caller, the walk gives each signature the keys that the inlined body, read
 * without following any call, checks it against.
 */
module Inlining {
  import opened Common
  import opened SlotKeys

  // ----- names

  function NamesIn(n: Node): (r: set<string>)
    decreases n
  {
    match n
    case Name(x) => {x}
    case Call(_, args) => NamesInAll(args)
    case List(items) => NamesInAll(items)
    case Block(parts) => NamesInAll(parts)
  }

  function NamesInAll(ns: seq<Node>): (r: set<string>)
    decreases ns
  {
    if ns == [] then {} else NamesIn(ns[0]) + NamesInAll(ns[1..])
  }

  type Env = map<string, string>

  function Rn(env: Env, x: string): (r: string)
  {
    if x in env then env[x] else x
  }

  /** Identifiers renamed throughout a node; the names of called functions stay. */
  function Rename(env: Env, n: Node): (r: Node)
    decreases n
  {
    match n
    case Name(x) => Name(Rn(env, x))
    case Call(name, args) => Call(name, RenameAll(env, args))
    case List(items) => List(RenameAll(env, items))
    case Block(parts) => Block(RenameAll(env, parts))
  }

  function RenameAll(env: Env, ns: seq<Node>): (r: seq<Node>)
    ensures |r| == |ns|
    decreases ns
  {
    if ns == [] then [] else [Rename(env, ns[0])] + RenameAll(env, ns[1..])
  }

  function RenameCalls(env: Env, cs: seq<CallSite>): (r: seq<CallSite>)
    ensures |r| == |cs|
  {
    if cs == [] then [] else [CallSite(cs[0].name, RenameAll(env, cs[0].args))] + RenameCalls(env, cs[1..])
  }

  lemma {:induction false} RenameAllAt(env: Env, ns: seq<Node>, k: nat)
    requires k < |ns|
    ensures RenameAll(env, ns)[k] == Rename(env, ns[k]) && NamesIn(ns[k]) <= NamesInAll(ns)
  {
    if k > 0 { RenameAllAt(env, ns[1..], k - 1); }
  }

  lemma {:induction false} RenameCallsAppend(env: Env, a: seq<CallSite>, b: seq<CallSite>)
    ensures RenameCalls(env, a + b) == RenameCalls(env, a) + RenameCalls(env, b)
  {
    if a == [] {
      assert a + b == b;
    } else {
      assert (a + b)[1..] == a[1..] + b;
      RenameCallsAppend(env, a[1..], b);
    }
  }

  /** Renaming a node renames its calls. */
  lemma {:induction false} CallsOfRenamed(env: Env, n: Node)
    ensures Calls(Rename(env, n)) == RenameCalls(env, Calls(n))
    decreases n
  {
    match n
    case Name(_) =>
    case Call(name, args) =>
      CallsOfRenamedAll(env, args);
      RenameCallsAppend(env, [CallSite(name, args)], CallsAll(args));
      assert RenameCalls(env, [CallSite(name, args)]) == [CallSite(name, RenameAll(env, args))];
    case List(items) => CallsOfRenamedAll(env, items);
    case Block(parts) => CallsOfRenamedAll(env, parts);
  }

  lemma {:induction false} CallsOfRenamedAll(env: Env, ns: seq<Node>)
    ensures CallsAll(RenameAll(env, ns)) == RenameCalls(env, CallsAll(ns))
    decreases ns
  {
    if ns != [] {
      CallsOfRenamed(env, ns[0]);
      CallsOfRenamedAll(env, ns[1..]);
      RenameCallsAppend(env, Calls(ns[0]), CallsAll(ns[1..]));
    }
  }

  lemma {:induction false} RenameNothing(n: Node)
    ensures Rename(map[], n) == n
    decreases n
  {
    match n
    case Name(_) =>
    case Call(_, args) => RenameNothingAll(args);
    case List(items) => RenameNothingAll(items);
    case Block(parts) => RenameNothingAll(parts);
  }

  lemma {:induction false} RenameNothingAll(ns: seq<Node>)
    ensures RenameAll(map[], ns) == ns
    decreases ns
  {
    if ns != [] {
      RenameNothing(ns[0]);
      RenameNothingAll(ns[1..]);
    }
  }

  /** Every name in the arguments of the calls is in the set. */
  ghost predicate Within(cs: seq<CallSite>, names: set<string>)
  {
    forall k :: 0 <= k < |cs| ==> NamesInAll(cs[k].args) <= names
  }

  lemma {:induction false} CallsWithin(n: Node, names: set<string>)
    requires NamesIn(n) <= names
    ensures Within(Calls(n), names)
    decreases n
  {
    match n
    case Name(_) =>
    case Call(_, args) => CallsAllWithin(args, names);
    case List(items) => CallsAllWithin(items, names);
    case Block(parts) => CallsAllWithin(parts, names);
  }

  lemma {:induction false} CallsAllWithin(ns: seq<Node>, names: set<string>)
    requires NamesInAll(ns) <= names
    ensures Within(CallsAll(ns), names)
    decreases ns
  {
    if ns != [] {
      CallsWithin(ns[0], names);
      CallsAllWithin(ns[1..], names);
    }
  }

  // ----- renaming and scopes

  /** On these names the first scope reads what the second reads after renaming. */
  ghost predicate Agree(names: set<string>, env: Env, s: Scope, t: Scope)
  {
    forall x :: x in names ==> s.sigOf(x) == t.sigOf(Rn(env, x)) && s.keyOf(x) == t.keyOf(Rn(env, x))
  }

  lemma KeyRenamed(names: set<string>, env: Env, s: Scope, t: Scope, e: Node)
    requires Agree(names, env, s, t) && NamesIn(e) <= names
    ensures KeyIn(s, e) == KeyIn(t, Rename(env, e))
  {
    if e.Call? && |e.args| == 1 {
      RenameAllAt(env, e.args, 0);
    }
  }

  lemma {:induction false} KeysRenamed(names: set<string>, env: Env, s: Scope, t: Scope, items: seq<Node>)
    requires Agree(names, env, s, t) && NamesInAll(items) <= names
    ensures KeysIn(s, items) == KeysIn(t, RenameAll(env, items))
  {
    hide KeyIn;
    if items != [] {
      KeyRenamed(names, env, s, t, items[0]);
      KeysRenamed(names, env, s, t, items[1..]);
    }
  }

  lemma {:induction false} ChecksRenamed(names: set<string>, env: Env, s: Scope, t: Scope, items: seq<Node>,
                                         keys: Option<seq<Key>>)
    requires Agree(names, env, s, t) && NamesInAll(items) <= names
    ensures match (Identifiers(items), Identifiers(RenameAll(env, items)))
            case (Some(a), Some(b)) => ChecksOf(s, a, keys) == ChecksOf(t, b, keys)
            case (None, None) => true
            case _ => false
  {
    if items != [] {
      assert RenameAll(env, items)[0] == Rename(env, items[0])
             && RenameAll(env, items)[1..] == RenameAll(env, items[1..]);
      ChecksRenamed(names, env, s, t, items[1..], keys);
    }
  }

  lemma DirectRenamed(names: set<string>, env: Env, s: Scope, t: Scope, c: CallSite)
    requires Agree(names, env, s, t) && NamesInAll(c.args) <= names
    ensures DirectChecks(s, c) == DirectChecks(t, CallSite(c.name, RenameAll(env, c.args)))
  {
    hide KeyIn, KeysIn, ChecksOf, Identifiers;
    if |c.args| > 0 { RenameAllAt(env, c.args, 0); }
    if |c.args| > 1 {
      RenameAllAt(env, c.args, 1);
      KeyRenamed(names, env, s, t, c.args[1]);
      if c.args[1].List? { KeysRenamed(names, env, s, t, c.args[1].items); }
    }
    if |c.args| > 0 && c.args[0].List? {
      ChecksRenamed(names, env, s, t, c.args[0].items,
                    if |c.args| > 1 && c.args[1].List? then KeysIn(s, c.args[1].items) else None);
    }
  }

  lemma {:induction false} BindRenamed(env: Env, params: seq<Param>, args: seq<Node>, x: string)
    ensures x in Bind(params, args) <==> x in Bind(params, RenameAll(env, args))
    ensures x in Bind(params, args) ==>
              match Bind(params, args)[x]
              case None => Bind(params, RenameAll(env, args))[x] == None
              case Some(y) => y in NamesInAll(args) && Bind(params, RenameAll(env, args))[x] == Some(Rn(env, y))
  {
    if params != [] {
      var k := |params| - 1;
      BindRenamed(env, params[..k], args, x);
      if k < |args| { RenameAllAt(env, args, k); }
    }
  }

  lemma HelperAgree(names: set<string>, env: Env, s: Scope, t: Scope, params: seq<Param>, args: seq<Node>,
                    contract: string -> Option<Key>, body: set<string>)
    requires Agree(names, env, s, t) && NamesInAll(args) <= names
    ensures Agree(body, map[], HelperScope(Bind(params, args), s, contract),
                  HelperScope(Bind(params, RenameAll(env, args)), t, contract))
  {
    hide Bind, RenameAll, NamesInAll;
    forall x | x in body
      ensures var a, b :=
                HelperScope(Bind(params, args), s, contract),
                  HelperScope(Bind(params, RenameAll(env, args)), t, contract);
              a.sigOf(x) == b.sigOf(Rn(map[], x)) && a.keyOf(x) == b.keyOf(Rn(map[], x))
    {
      BindRenamed(env, params, args, x);
    }
  }

  lemma {:induction false} RenameCallsNothing(cs: seq<CallSite>)
    ensures RenameCalls(map[], cs) == cs
  {
    if cs != [] {
      RenameNothingAll(cs[0].args);
      RenameCallsNothing(cs[1..]);
    }
  }

  /** Renaming the calls and reading them in the renamed scope finds the same checks, through any depth of helpers. */
  lemma {:induction false} RenamedChecks(c: Contract, cs: seq<CallSite>, names: set<string>, env: Env, s: Scope,
                                         t: Scope, contract: string -> Option<Key>, visiting: set<string>)
    requires Within(cs, names) && Agree(names, env, s, t)
    ensures Checks(c, cs, s, contract, visiting) == Checks(c, RenameCalls(env, cs), t, contract, visiting)
    decreases |HelperNames(c) - visiting|, |cs|
  {
    hide Agree, HelperScope, Bind, DirectChecks, HelperNames, Builtin, NamesIn, NamesInAll, RenameAll, Calls;
    if cs != [] {
      var call := cs[0];
      assert NamesInAll(cs[0].args) <= names;
      RenamedChecks(c, cs[1..], names, env, s, t, contract, visiting);
      DirectRenamed(names, env, s, t, call);
      var h := FindHelper(c.functions, call.name);
      if h.Some? && call.name !in visiting {
        Visiting(c, visiting, call.name);
        var body := Calls(h.value.body);
        HelperAgree(names, env, s, t, h.value.params, call.args, contract, NamesIn(h.value.body));
        CallsWithin(h.value.body, NamesIn(h.value.body));
        var inner := HelperScope(Bind(h.value.params, call.args), s, contract);
        var renamed := HelperScope(Bind(h.value.params, RenameAll(env, call.args)), t, contract);
        RenamedChecks(c, body, NamesIn(h.value.body), map[], inner, renamed, contract, visiting + {call.name});
        RenameCallsNothing(body);
      }
    }
  }

  // ----- inlining

  predicate IsHelper(c: Contract, name: string)
  {
    !Builtin(name) && FindHelper(c.functions, name).Some?
  }

  /** Every helper a node calls has rank below `r`. */
  predicate Below(c: Contract, rank: string -> nat, n: Node, r: nat)
    decreases n
  {
    match n
    case Name(_) => true
    case Call(name, args) => (IsHelper(c, name) ==> rank(name) < r) && AllBelow(c, rank, args, r)
    case List(items) => AllBelow(c, rank, items, r)
    case Block(parts) => AllBelow(c, rank, parts, r)
  }

  predicate AllBelow(c: Contract, rank: string -> nat, ns: seq<Node>, r: nat)
    decreases ns
  {
    ns == [] || (Below(c, rank, ns[0], r) && AllBelow(c, rank, ns[1..], r))
  }

  /** The helpers are not recursive: each calls only helpers of lower rank. */
  ghost predicate Ranked(c: Contract, rank: string -> nat)
  {
    forall f :: f in c.functions && !f.entrypoint ==> Below(c, rank, f.body, rank(f.name))
  }

  lemma {:induction false} BelowRenamed(c: Contract, rank: string -> nat, env: Env, n: Node, r: nat)
    requires Below(c, rank, n, r)
    ensures Below(c, rank, Rename(env, n), r)
    decreases n
  {
    match n
    case Name(_) =>
    case Call(_, args) => AllBelowRenamed(c, rank, env, args, r);
    case List(items) => AllBelowRenamed(c, rank, env, items, r);
    case Block(parts) => AllBelowRenamed(c, rank, env, parts, r);
  }

  lemma {:induction false} AllBelowRenamed(c: Contract, rank: string -> nat, env: Env, ns: seq<Node>, r: nat)
    requires AllBelow(c, rank, ns, r)
    ensures AllBelow(c, rank, RenameAll(env, ns), r)
    decreases ns
  {
    if ns != [] {
      BelowRenamed(c, rank, env, ns[0], r);
      AllBelowRenamed(c, rank, env, ns[1..], r);
    }
  }

  /** A helper's parameters as names of the caller; one given no identifier becomes the local its value is kept in. */
  function EnvOf(bound: map<string, Option<string>>, local: string): (r: Env)
  {
    map x | x in bound :: match bound[x] case Some(y) => y case None => local
  }

  /** A call to a helper becomes the helper's body with its parameters replaced, then what its arguments contain. */
  ghost function Inline(c: Contract, rank: string -> nat, local: string, n: Node, r: nat): Node
    requires Ranked(c, rank) && Below(c, rank, n, r)
    decreases r, n
  {
    match n
    case Name(_) => n
    case List(items) => List(InlineAll(c, rank, local, items, r))
    case Block(parts) => Block(InlineAll(c, rank, local, parts, r))
    case Call(name, args) =>
      if IsHelper(c, name) then
        var h := FindHelper(c.functions, name).value;
        var env := EnvOf(Bind(h.params, args), local);
        BelowRenamed(c, rank, env, h.body, rank(name));
        Block([Inline(c, rank, local, Rename(env, h.body), rank(name))] + InlineAll(c, rank, local, args, r))
      else Call(name, InlineAll(c, rank, local, args, r))
  }

  ghost function InlineAll(c: Contract, rank: string -> nat, local: string, ns: seq<Node>, r: nat): (res: seq<Node>)
    requires Ranked(c, rank) && AllBelow(c, rank, ns, r)
    ensures |res| == |ns|
    decreases r, ns
  {
    if ns == [] then [] else [Inline(c, rank, local, ns[0], r)] + InlineAll(c, rank, local, ns[1..], r)
  }

  /** Nothing is left to follow in an inlined node. */
  lemma {:induction false} InlinedCallsNoHelper(c: Contract, rank: string -> nat, local: string, n: Node, r: nat)
    requires Ranked(c, rank) && Below(c, rank, n, r)
    ensures Below(c, rank, Inline(c, rank, local, n, r), 0)
    decreases r, n
  {
    hide Ranked, IsHelper;
    match n
    case Name(_) =>
    case List(items) => InlinedAllCallNoHelper(c, rank, local, items, r);
    case Block(parts) => InlinedAllCallNoHelper(c, rank, local, parts, r);
    case Call(name, args) =>
      InlinedAllCallNoHelper(c, rank, local, args, r);
      if IsHelper(c, name) {
        var body := HelperBody(c, rank, local, name, args);
        InlinedCallsNoHelper(c, rank, local, body, rank(name));
        var first := Inline(c, rank, local, body, rank(name));
        var rest := InlineAll(c, rank, local, args, r);
        assert ([first] + rest)[1..] == rest;
      }
  }

  lemma {:induction false} InlinedAllCallNoHelper(c: Contract, rank: string -> nat, local: string, ns: seq<Node>,
                                                  r: nat)
    requires Ranked(c, rank) && AllBelow(c, rank, ns, r)
    ensures AllBelow(c, rank, InlineAll(c, rank, local, ns, r), 0)
    decreases r, ns
  {
    if ns != [] {
      InlinedCallsNoHelper(c, rank, local, ns[0], r);
      InlinedAllCallNoHelper(c, rank, local, ns[1..], r);
    }
  }

  /** The body a call to a helper is replaced by, before its own helpers are inlined. */
  ghost function HelperBody(c: Contract, rank: string -> nat, local: string, name: string, args: seq<Node>): (r: Node)
    requires Ranked(c, rank) && IsHelper(c, name)
    ensures Below(c, rank, r, rank(name))
  {
    var h := FindHelper(c.functions, name).value;
    var env := EnvOf(Bind(h.params, args), local);
    BelowRenamed(c, rank, env, h.body, rank(name));
    Rename(env, h.body)
  }

  // ----- the inlined body read directly

  /** The checks written in the calls themselves. */
  function WrittenChecks(s: Scope, cs: seq<CallSite>): (r: seq<Check>)
  {
    if cs == [] then [] else DirectChecks(s, cs[0]) + WrittenChecks(s, cs[1..])
  }

  lemma {:induction false} WrittenAppend(s: Scope, a: seq<CallSite>, b: seq<CallSite>)
    ensures WrittenChecks(s, a + b) == WrittenChecks(s, a) + WrittenChecks(s, b)
  {
    if a == [] {
      assert a + b == b;
    } else {
      assert (a + b)[1..] == a[1..] + b;
      WrittenAppend(s, a[1..], b);
    }
  }

  lemma {:induction false} ChecksAppend(c: Contract, a: seq<CallSite>, b: seq<CallSite>, s: Scope,
                                        contract: string -> Option<Key>, visiting: set<string>)
    ensures Checks(c, a + b, s, contract, visiting)
            == Checks(c, a, s, contract, visiting) + Checks(c, b, s, contract, visiting)
  {
    hide HelperScope, Bind, DirectChecks, HelperNames, Builtin, Calls;
    if a == [] {
      assert a + b == b;
    } else {
      assert (a + b)[1..] == a[1..] + b;
      ChecksAppend(c, a[1..], b, s, contract, visiting);
    }
  }

  /** The names of a helper that are not its parameters are no signature of the top-level function. */
  ghost predicate Hygienic(c: Contract, fn: Function)
  {
    forall f, x :: f in c.functions && !f.entrypoint && x in NamesIn(f.body) && x in SigParams(fn.params) ==>
      exists p :: p in f.params && p.name == x
  }

  predicate Fresh(c: Contract, fn: Function, x: string)
  {
    && x !in c.params && (forall f :: f in c.fields ==> f.name != x) && (forall p :: p in fn.params ==> p.name != x)
  }

  lemma {:induction false} SigParamsAreParams(ps: seq<Param>, x: string)
    requires x in SigParams(ps)
    ensures exists p :: p in ps && p.name == x
  {
    if ps[0].base == "sig" && ps[0].name == x {
      assert ps[0] in ps;
    } else {
      SigParamsAreParams(ps[1..], x);
    }
  }

  lemma FreshStandsForNothing(c: Contract, fn: Function, g: Given, x: string)
    requires Fresh(c, fn, x)
    ensures TopScope(c, fn, g).sigOf(x) == None && TopScope(c, fn, g).keyOf(x) == None
  {
    if x in SigParams(fn.params) { SigParamsAreParams(fn.params, x); }
  }

  lemma {:induction false} BindKeys(params: seq<Param>, args: seq<Node>, p: Param)
    requires p in params
    ensures p.name in Bind(params, args)
  {
    var k := |params| - 1;
    if p != params[k] { BindKeys(params[..k], args, p); }
  }

  lemma InlinedScope(c: Contract, fn: Function, g: Given, local: string, h: Function, args: seq<Node>)
    requires Hygienic(c, fn) && Fresh(c, fn, local) && h in c.functions && !h.entrypoint
    ensures Agree(NamesIn(h.body), EnvOf(Bind(h.params, args), local),
                  HelperScope(Bind(h.params, args), TopScope(c, fn, g), ContractKeys(c, fn, g)), TopScope(c, fn, g))
  {
    hide Bind, NamesIn, ContractKeys, SigParams, Fresh;
    var bound := Bind(h.params, args);
    FreshStandsForNothing(c, fn, g, local);
    forall x | x in NamesIn(h.body) && x !in bound ensures TopScope(c, fn, g).sigOf(x) == None {
      if x in SigParams(fn.params) {
        var p :| p in h.params && p.name == x;
        BindKeys(h.params, args, p);
      }
    }
  }

  /** The walk of a helper's body is the walk of what replaces it. */
  lemma HelperStep(c: Contract, fn: Function, g: Given, rank: string -> nat, local: string, name: string,
                   args: seq<Node>, visiting: set<string>)
    requires Ranked(c, rank) && Hygienic(c, fn) && Fresh(c, fn, local) && IsHelper(c, name)
    ensures var h := FindHelper(c.functions, name).value;
            Checks(c, Calls(h.body), HelperScope(Bind(h.params, args), TopScope(c, fn, g), ContractKeys(c, fn, g)),
                   ContractKeys(c, fn, g), visiting)
            == Checks(c, Calls(HelperBody(c, rank, local, name, args)), TopScope(c, fn, g), ContractKeys(c, fn, g),
                      visiting)
  {
    hide Checks, Calls, NamesIn, Agree, TopScope, HelperScope, Hygienic, Fresh, Bind, Rename, Below, EnvOf, Within;
    var h := FindHelper(c.functions, name).value;
    var env := EnvOf(Bind(h.params, args), local);
    InlinedScope(c, fn, g, local, h, args);
    CallsWithin(h.body, NamesIn(h.body));
    RenamedChecks(c, Calls(h.body), NamesIn(h.body), env,
                  HelperScope(Bind(h.params, args), TopScope(c, fn, g), ContractKeys(c, fn, g)), TopScope(c, fn, g),
                    ContractKeys(c, fn, g), visiting);
    CallsOfRenamed(env, h.body);
  }

  lemma {:induction false} IdentifiersInlined(c: Contract, rank: string -> nat, local: string, items: seq<Node>, r: nat)
    requires Ranked(c, rank) && AllBelow(c, rank, items, r)
    ensures Identifiers(InlineAll(c, rank, local, items, r)) == Identifiers(items)
  {
    if items != [] {
      assert InlineAll(c, rank, local, items, r)[1..] == InlineAll(c, rank, local, items[1..], r);
      IdentifiersInlined(c, rank, local, items[1..], r);
    }
  }

  lemma {:induction false} InlineAllAt(c: Contract, rank: string -> nat, local: string, ns: seq<Node>, r: nat, k: nat)
    requires Ranked(c, rank) && AllBelow(c, rank, ns, r) && k < |ns|
    ensures Below(c, rank, ns[k], r) && InlineAll(c, rank, local, ns, r)[k] == Inline(c, rank, local, ns[k], r)
  {
    if k > 0 { InlineAllAt(c, rank, local, ns[1..], r, k - 1); }
  }

  lemma KeyInlined(c: Contract, rank: string -> nat, local: string, s: Scope, e: Node, r: nat)
    requires Ranked(c, rank) && Below(c, rank, e, r) && !IsHelper(c, "pubkey")
    ensures KeyIn(s, Inline(c, rank, local, e, r)) == KeyIn(s, e)
  {
    hide IsHelper, Ranked;
    if e.Call? && |e.args| == 1 { InlineAllAt(c, rank, local, e.args, r, 0); }
  }

  lemma {:induction false} KeysInlined(c: Contract, rank: string -> nat, local: string, s: Scope, items: seq<Node>,
                                       r: nat)
    requires Ranked(c, rank) && AllBelow(c, rank, items, r) && !IsHelper(c, "pubkey")
    ensures KeysIn(s, InlineAll(c, rank, local, items, r)) == KeysIn(s, items)
  {
    hide IsHelper, Ranked, KeyIn;
    if items != [] {
      assert InlineAll(c, rank, local, items, r)[1..] == InlineAll(c, rank, local, items[1..], r);
      KeyInlined(c, rank, local, s, items[0], r);
      KeysInlined(c, rank, local, s, items[1..], r);
    }
  }

  /** A check reads the same identifiers before and after its arguments are inlined. */
  lemma DirectInlined(c: Contract, rank: string -> nat, local: string, s: Scope, name: string, args: seq<Node>, r: nat)
    requires Ranked(c, rank) && AllBelow(c, rank, args, r) && !IsHelper(c, "pubkey")
    ensures DirectChecks(s, CallSite(name, InlineAll(c, rank, local, args, r))) == DirectChecks(s, CallSite(name, args))
  {
    hide IsHelper, Ranked, KeyIn, KeysIn, Identifiers, ChecksOf, AllBelow;
    if |args| > 0 {
      InlineAllAt(c, rank, local, args, r, 0);
      if args[0].List? { IdentifiersInlined(c, rank, local, args[0].items, r); }
    }
    if |args| > 1 {
      InlineAllAt(c, rank, local, args, r, 1);
      KeyInlined(c, rank, local, s, args[1], r);
      if args[1].List? { KeysInlined(c, rank, local, s, args[1].items, r); }
    }
  }

  // ----- the walk and the inlined body

  /** What the agreement asks: helpers ranked and hygienic, a local name that stands for nothing, `pubkey` the cast. */
  ghost predicate Fit(c: Contract, fn: Function, rank: string -> nat, local: string)
  {
    Ranked(c, rank) && Hygienic(c, fn) && Fresh(c, fn, local) && !IsHelper(c, "pubkey")
  }

  lemma {:induction false} WalkIsInlined(c: Contract, fn: Function, g: Given, rank: string -> nat, local: string,
                                         n: Node, r: nat, visiting: set<string>)
    requires Fit(c, fn, rank, local) && Below(c, rank, n, r) && forall v :: v in visiting ==> rank(v) >= r
    ensures Checks(c, Calls(n), TopScope(c, fn, g), ContractKeys(c, fn, g), visiting)
            == WrittenChecks(TopScope(c, fn, g), Calls(Inline(c, rank, local, n, r)))
    decreases r, n
  {
    hide Ranked, Hygienic, Fresh, Checks, WrittenChecks, TopScope, ContractKeys, IsHelper;
    match n {
      case Name(_) => NothingChecked(c, TopScope(c, fn, g), ContractKeys(c, fn, g), visiting);
      case List(items) => WalkIsInlinedAll(c, fn, g, rank, local, items, r, visiting);
      case Block(parts) => WalkIsInlinedAll(c, fn, g, rank, local, parts, r, visiting);
      case Call(name, args) =>
        WalkIsInlinedAll(c, fn, g, rank, local, args, r, visiting);
        CallChecks(c, fn, g, name, args, visiting);
        if IsHelper(c, name) {
          var body := HelperBody(c, rank, local, name, args);
          HelperStep(c, fn, g, rank, local, name, args, visiting + {name});
          WalkIsInlined(c, fn, g, rank, local, body, rank(name), visiting + {name});
          BlockWritten(TopScope(c, fn, g), Inline(c, rank, local, body, rank(name)),
                       InlineAll(c, rank, local, args, r));
        } else {
          DirectInlined(c, rank, local, TopScope(c, fn, g), name, args, r);
          CallWritten(TopScope(c, fn, g), name, InlineAll(c, rank, local, args, r));
        }
    }
  }

  lemma {:induction false} WalkIsInlinedAll(c: Contract, fn: Function, g: Given, rank: string -> nat, local: string,
                                            ns: seq<Node>, r: nat, visiting: set<string>)
    requires Fit(c, fn, rank, local) && AllBelow(c, rank, ns, r) && forall v :: v in visiting ==> rank(v) >= r
    ensures Checks(c, CallsAll(ns), TopScope(c, fn, g), ContractKeys(c, fn, g), visiting)
            == WrittenChecks(TopScope(c, fn, g), CallsAll(InlineAll(c, rank, local, ns, r)))
    decreases r, ns
  {
    hide Ranked, Hygienic, Fresh, Checks, WrittenChecks, TopScope, ContractKeys, IsHelper, Calls, Inline, Below;
    if ns == [] {
      NothingChecked(c, TopScope(c, fn, g), ContractKeys(c, fn, g), visiting);
    } else {
      WalkIsInlined(c, fn, g, rank, local, ns[0], r, visiting);
      WalkIsInlinedAll(c, fn, g, rank, local, ns[1..], r, visiting);
      ChecksAppend(c, Calls(ns[0]), CallsAll(ns[1..]), TopScope(c, fn, g), ContractKeys(c, fn, g), visiting);
      var first, rest := Inline(c, rank, local, ns[0], r), InlineAll(c, rank, local, ns[1..], r);
      assert ([first] + rest)[1..] == rest;
      WrittenAppend(TopScope(c, fn, g), Calls(first), CallsAll(rest));
    }
  }

  lemma NothingChecked(c: Contract, s: Scope, contract: string -> Option<Key>, visiting: set<string>)
    ensures Checks(c, [], s, contract, visiting) == [] && WrittenChecks(s, []) == []
  {
  }

  lemma CallWritten(s: Scope, name: string, args: seq<Node>)
    ensures WrittenChecks(s, Calls(Call(name, args)))
            == DirectChecks(s, CallSite(name, args)) + WrittenChecks(s, CallsAll(args))
  {
    hide DirectChecks;
    assert ([CallSite(name, args)] + CallsAll(args))[1..] == CallsAll(args);
  }

  lemma BlockWritten(s: Scope, first: Node, rest: seq<Node>)
    ensures WrittenChecks(s, Calls(Block([first] + rest)))
            == WrittenChecks(s, Calls(first)) + WrittenChecks(s, CallsAll(rest))
  {
    hide WrittenChecks;
    assert ([first] + rest)[1..] == rest;
    WrittenAppend(s, Calls(first), CallsAll(rest));
  }

  /** What one call contributes to the walk, before its arguments. */
  lemma CallChecks(c: Contract, fn: Function, g: Given, name: string, args: seq<Node>, visiting: set<string>)
    requires IsHelper(c, name) ==> name !in visiting
    ensures var s, contract := TopScope(c, fn, g), ContractKeys(c, fn, g);
            Checks(c, Calls(Call(name, args)), s, contract, visiting)
            == (if IsHelper(c, name) then
                  var h := FindHelper(c.functions, name).value;
                  Checks(c, Calls(h.body), HelperScope(Bind(h.params, args), s, contract), contract, visiting + {name})
                else DirectChecks(s, CallSite(name, args)))
               + Checks(c, CallsAll(args), s, contract, visiting)
  {
    hide DirectChecks, HelperScope, Bind, TopScope, ContractKeys, HelperNames;
    assert ([CallSite(name, args)] + CallsAll(args))[1..] == CallsAll(args);
    if !Builtin(name) { NoDirectChecks(TopScope(c, fn, g), CallSite(name, args)); }
  }

  lemma NoDirectChecks(s: Scope, c: CallSite)
    requires !Builtin(c.name)
    ensures DirectChecks(s, c) == []
  {
  }

  /**
   * For non-recursive helpers that mention no signature of the caller, each slot the analysis gives is the one the
   * fully inlined body, with no helper left to call, states directly: the same keys in the same order, or the same
   * refusal.
   */
  lemma SlotKeysAreInlined(c: Contract, fn: Function, g: Given, rank: string -> nat, local: string)
    requires Fit(c, fn, rank, local) && Below(c, rank, fn.body, rank(fn.name))
    ensures var body := Inline(c, rank, local, fn.body, rank(fn.name));
            && Below(c, rank, body, 0)
            && SlotsOf(c, fn, g)
                 == map sig | sig in SigParams(fn.params) :: SlotOf(WrittenChecks(TopScope(c, fn, g), Calls(body)), sig)
  {
    hide Ranked, Hygienic, Fresh, Checks, WrittenChecks, TopScope, ContractKeys, IsHelper, Calls, Inline, Below, SlotOf;
    InlinedCallsNoHelper(c, rank, local, fn.body, rank(fn.name));
    WalkIsInlined(c, fn, g, rank, local, fn.body, rank(fn.name), {fn.name});
  }

  lemma {:induction false} KeysForExact(checks: seq<Check>, sig: string, k: Key)
    ensures k in KeysFor(checks, sig) <==> exists e :: e in checks && e.sig == sig && e.keys.Some? && k in e.keys.value
  {
    if checks != [] {
      KeysForExact(checks[1..], sig, k);
      assert checks[0] in checks && forall e :: e in checks <==> e == checks[0] || e in checks[1..];
    }
  }

  /** A slot is told exactly when every check of it is, and then holds each key some check names, once. */
  lemma SlotExact(checks: seq<Check>, sig: string)
    ensures SlotOf(checks, sig).None? <==>
              || (exists e :: e in checks && e.sig == sig && e.keys.None?)
              || (forall e, k :: e in checks && e.sig == sig && e.keys.Some? ==> k !in e.keys.value)
    ensures SlotOf(checks, sig).Some? ==>
              && (forall k :: k in SlotOf(checks, sig).value <==>
                    exists e :: e in checks && e.sig == sig && e.keys.Some? && k in e.keys.value)
              && (forall i, j :: 0 <= i < j < |SlotOf(checks, sig).value| ==>
                    SlotOf(checks, sig).value[i] != SlotOf(checks, sig).value[j])
  {
    hide KeysFor, Distinct;
    forall k ensures k in KeysFor(checks, sig) <==>
      exists e :: e in checks && e.sig == sig && e.keys.Some? && k in e.keys.value {
      KeysForExact(checks, sig, k);
    }
    if KeysFor(checks, sig) != [] {
      assert KeysFor(checks, sig)[0] in KeysFor(checks, sig);
    } else {
      forall e, k | e in checks && e.sig == sig && e.keys.Some? ensures k !in e.keys.value {
        KeysForExact(checks, sig, k);
      }
    }
  }
}
