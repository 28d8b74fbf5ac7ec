/**
 * Covenant plans and what it means for one to be a contract's transition, said without loops: the kinds of the inputs,
 * the families they form, the lineage of every binding, terminations, successors and the arguments that carry states.
 */
module Covenant {
  import opened Common
  import PlannedUnlock

  // ----- silverscript-abi values

  datatype Sil =
    | Int(n: int)
    | Bool(b: bool)
    | Byte(n: int)
    | Text(s: string)
    | Bytes(bytes: seq<int>)
    | Array(items: seq<Sil>)
    | Object(fields: seq<Pair<Sil>>)

  type State = seq<Pair<Sil>>

  /** canonicalValue: object members in key order, at every depth. */
  function Canonical(v: Sil): (r: Sil)
    decreases v
  {
    match v
    case Array(items) => Array(CanonicalItems(items))
    case Object(fields) => Object(SortByKey(CanonicalFields(fields)))
    case _ => v
  }

  function CanonicalItems(items: seq<Sil>): (r: seq<Sil>)
    ensures |r| == |items|
    decreases items
  {
    if items == [] then [] else [Canonical(items[0])] + CanonicalItems(items[1..])
  }

  function CanonicalFields(fields: seq<Pair<Sil>>): (r: seq<Pair<Sil>>)
    ensures |r| == |fields|
    decreases fields
  {
    if fields == [] then [] else [Pair(fields[0].key, Canonical(fields[0].val))] + CanonicalFields(fields[1..])
  }

  /** sameValue: equality of canonical values. */
  predicate SameValue(a: Sil, b: Sil)
  {
    Canonical(a) == Canonical(b)
  }

  /** An argument of an entry: a value, or the slot a named account signs. */
  datatype PlanArg = Value(value: Sil) | Signer(account: string)

  // ----- plans

  datatype Outpoint = Outpoint(txId: string, index: nat)

  datatype InputKind = P2pk | P2sh | CovenantKind

  datatype ContractRef = ContractRef(
    recordHash: string, artifactSha: string, contract: string, policy: string, entry: string, args: seq<PlanArg>)

  datatype PlanInput = PlanInput(
    outpoint: Outpoint, amount: int, script: string, kind: InputKind, covenantId: Option<string>, address: string,
    signer: string, contract: Option<ContractRef>)

  datatype Binding = Binding(covenantId: string, authorizingInput: nat)

  datatype OutputRole = Change | Payment | Unstated

  datatype PlanOutput = PlanOutput(amount: int, address: string, role: OutputRole, covenant: Option<Binding>)

  datatype Next = Encoded(states: seq<State>) | Recompiled(artifactSha: string)

  datatype NextState = NextState(covenantId: string, input: nat, outputs: seq<nat>, next: Next)

  datatype Genesis = Genesis(
    authorizingInput: nat, outputs: seq<nat>, covenantId: Option<string>, contract: Option<ContractRef>,
    states: Option<seq<State>>)

  datatype Plan = Plan(
    inputs: seq<PlanInput>, outputs: seq<PlanOutput>, nextState: seq<NextState>, groups: seq<Genesis>,
    funder: Option<string>, networkId: string, storageMass: int, maxFee: int)

  // ----- contract facts

  datatype BindingKind = Auth | Cov

  datatype Bound = Literal(n: int) | Named(param: string)

  datatype Declaration = Declaration(
    policy: string, binding: BindingKind, from: Bound, to: Bound, transitionMode: bool, terminationAllowed: bool)

  datatype ParamKind = StateParam | StatesParam | OtherParam

  datatype Facts = Facts(
    recordHash: string, artifactSha: string, contractName: string, template: string, bytecode: string, lock: string,
    declarations: seq<Declaration>, policyEntries: map<string, string>, delegateEntry: Option<string>,
    entries: map<string, seq<ParamKind>>, ctorParams: seq<string>, ctorArgs: seq<Sil>)

  datatype Successor = Successor(template: string, bytecode: string, artifactSha: string, lock: string)

  /** An output as the node lists it. */
  datatype Utxo = Utxo(amount: int, script: string, covenantId: Option<string>)

  type Utxos = map<Outpoint, Utxo>

  datatype AuthOutput = AuthOutput(index: nat, amount: int, script: string)

  /**
   * Foreign calls: the facts silverc gives, addresses, locks at a state, covenant ids, unlocks, keys, mass, networks.
   */
  datatype World = World(
    facts: (string, string) -> Option<Facts>,
    successor: nat -> Option<Successor>,
    scriptOf: string -> Option<string>,
    lockAt: (Facts, State) -> Option<string>,
    covenantIdOf: (Outpoint, seq<AuthOutput>) -> string,
    unlock: (Facts, string, seq<PlanArg>, bool) -> Option<string>,
    slotsResolved: (Facts, string, seq<PlanArg>) -> bool,
    publicKeyOf: Option<string -> Option<string>>,
    signatureScripts: Option<seq<string>>,
    minimumFee: Plan -> Option<int>,
    storageMass: Plan -> int,
    networkAllowed: string -> bool)

  function LowerChar(c: char): (r: char)
  {
    if 'A' <= c <= 'Z' then (c as int + 32) as char else c
  }

  function Lower(s: string): (r: string)
  {
    seq(|s|, i requires 0 <= i < |s| => LowerChar(s[i]))
  }

  /** The characters are the same, or the same letter in different case. */
  predicate SameLetter(a: char, b: char)
  {
    || a == b
    || ('A' <= a <= 'Z' && b as int == a as int + 32)
    || ('A' <= b <= 'Z' && a as int == b as int + 32)
  }

  /** Lower-casing tells texts apart exactly up to the case of their letters, and leaves no capital. */
  lemma LowerExact(s: string, t: string)
    ensures Lower(s) == Lower(t) <==> |s| == |t| && forall i :: 0 <= i < |s| ==> SameLetter(s[i], t[i])
    ensures forall i :: 0 <= i < |Lower(s)| ==> !('A' <= Lower(s)[i] <= 'Z')
  {
    if |s| == |t| && forall i :: 0 <= i < |s| ==> SameLetter(s[i], t[i]) {
      assert forall i :: 0 <= i < |s| ==> Lower(s)[i] == Lower(t)[i];
    }
    if Lower(s) == Lower(t) {
      assert forall i :: 0 <= i < |s| ==> LowerChar(s[i]) == Lower(s)[i] == Lower(t)[i] == LowerChar(t[i]);
    }
  }

  // ----- shape (assertV1PlanShape)

  function TotalIn(inputs: seq<PlanInput>): (n: int)
  {
    if inputs == [] then 0 else inputs[0].amount + TotalIn(inputs[1..])
  }

  function TotalOut(outputs: seq<PlanOutput>): (n: int)
  {
    if outputs == [] then 0 else outputs[0].amount + TotalOut(outputs[1..])
  }

  function Fee(plan: Plan): (n: int)
  {
    TotalIn(plan.inputs) - TotalOut(plan.outputs)
  }

  predicate InputShape(x: PlanInput)
  {
    match x.kind
    case CovenantKind => x.covenantId.Some? && x.contract.Some?
    case _ => x.covenantId.None?
  }

  predicate GroupShape(plan: Plan, g: Genesis)
  {
    && g.authorizingInput < |plan.inputs| && g.outputs != []
    && (g.states.Some? ==> g.contract.Some? && |g.states.value| == |g.outputs|)
    && (forall k :: 0 <= k < |g.outputs| ==> g.outputs[k] < |plan.outputs| && plan.outputs[g.outputs[k]].covenant.None?)
    && (forall k, l :: 0 <= k < l < |g.outputs| ==> g.outputs[k] != g.outputs[l])
  }

  predicate NextShape(plan: Plan, n: NextState)
  {
    && n.input < |plan.inputs| && plan.inputs[n.input].kind.CovenantKind?
    && plan.inputs[n.input].covenantId == Some(n.covenantId)
    && (forall k :: 0 <= k < |n.outputs| ==> n.outputs[k] < |plan.outputs|)
    && (n.next.Encoded? ==> |n.next.states| == |n.outputs|)
  }

  /** The shape a plan must have before anything else is read. */
  predicate Shape(plan: Plan)
  {
    && plan.inputs != [] && plan.outputs != []
    && (forall i :: 0 <= i < |plan.inputs| ==> InputShape(plan.inputs[i]))
    && (forall i, j :: 0 <= i < j < |plan.inputs| ==> plan.inputs[i].outpoint != plan.inputs[j].outpoint)
    && (forall o :: 0 <= o < |plan.outputs| && plan.outputs[o].covenant.Some? ==>
          plan.outputs[o].covenant.value.authorizingInput < |plan.inputs|)
    && (forall g :: 0 <= g < |plan.groups| ==> GroupShape(plan, plan.groups[g]))
    && (forall g, h :: 0 <= g < h < |plan.groups| ==>
          forall o :: o in plan.groups[g].outputs ==> o !in plan.groups[h].outputs)
    && (forall n :: 0 <= n < |plan.nextState| ==> NextShape(plan, plan.nextState[n]))
    && 0 <= Fee(plan) <= plan.maxFee
  }

  // ----- inputs

  predicate P2pkScript(s: string)
  {
    && |s| == 72 && s[..6] == "000020" && s[70..] == "ac"
    && forall i :: 6 <= i < 70 ==> '0' <= s[i] <= '9' || 'a' <= s[i] <= 'f'
  }

  /** The input is listed unspent, with the plan's amount and script. */
  predicate RealInput(plan: Plan, node: Utxos, i: nat)
    requires i < |plan.inputs|
  {
    var x := plan.inputs[i];
    x.outpoint in node && node[x.outpoint].amount == x.amount && Lower(node[x.outpoint].script) == Lower(x.script)
  }

  /** The contract facts of an input, if its reference resolves. */
  function FactsOf(plan: Plan, w: World, i: nat): (r: Option<Facts>)
    requires i < |plan.inputs|
  {
    match plan.inputs[i].contract
    case None => None
    case Some(c) => w.facts(c.recordHash, c.contract)
  }

  predicate Reproduced(c: ContractRef, f: Facts)
  {
    f.recordHash == c.recordHash && f.artifactSha == c.artifactSha && f.contractName == c.contract
  }

  /** What the node lists decides the input's kind, and the plan's declaration agrees with it. */
  predicate KindAgrees(plan: Plan, node: Utxos, w: World, i: nat)
    requires i < |plan.inputs| && plan.inputs[i].outpoint in node
  {
    var x, u := plan.inputs[i], node[plan.inputs[i].outpoint];
    && (u.covenantId.Some? ==> x.kind.CovenantKind?)
    && (x.kind.CovenantKind? ==>
          u.covenantId.Some? && x.covenantId.Some? && Lower(u.covenantId.value) == Lower(x.covenantId.value))
    && (x.kind.P2pk? ==>
          && P2pkScript(Lower(x.script)) && plan.funder == Some(x.address)
          && (w.publicKeyOf.Some? ==>
                && w.publicKeyOf.value(x.signer).Some?
                && "20" + Lower(w.publicKeyOf.value(x.signer).value) == Lower(x.script)[4..70]))
    && (!x.kind.P2pk? ==>
          && x.contract.Some? && FactsOf(plan, w, i).Some?
          && Reproduced(x.contract.value, FactsOf(plan, w, i).value)
          && FactsOf(plan, w, i).value.lock == Lower(x.script))
  }

  // ----- families

  /** The input spends covenant `id`. */
  predicate Spends(plan: Plan, i: nat, id: string)
    requires i < |plan.inputs|
  {
    plan.inputs[i].kind.CovenantKind? && plan.inputs[i].covenantId.Some? && Lower(plan.inputs[i].covenantId.value) == id
  }

  /** The output continues covenant `id`. */
  predicate Continues(plan: Plan, o: nat, id: string)
    requires o < |plan.outputs|
  {
    plan.outputs[o].covenant.Some? && Lower(plan.outputs[o].covenant.value.covenantId) == id
  }

  /** The inputs of a family from index `from` on, ascending. */
  function MembersFrom(plan: Plan, id: string, from: nat): (r: seq<nat>)
    ensures forall k :: 0 <= k < |r| ==> from <= r[k] < |plan.inputs| && Spends(plan, r[k], id)
    decreases |plan.inputs| - from
  {
    if from >= |plan.inputs| then []
    else if Spends(plan, from, id) then
      var rest := MembersFrom(plan, id, from + 1);
      [from] + rest
    else MembersFrom(plan, id, from + 1)
  }

  function Members(plan: Plan, id: string): (r: seq<nat>)
    ensures forall k :: 0 <= k < |r| ==> r[k] < |plan.inputs| && Spends(plan, r[k], id)
  {
    MembersFrom(plan, id, 0)
  }

  function ContinuationsFrom(plan: Plan, id: string, from: nat): (r: seq<nat>)
    ensures forall k :: 0 <= k < |r| ==> from <= r[k] < |plan.outputs| && Continues(plan, r[k], id)
    decreases |plan.outputs| - from
  {
    if from >= |plan.outputs| then []
    else if Continues(plan, from, id) then
      var rest := ContinuationsFrom(plan, id, from + 1);
      [from] + rest
    else ContinuationsFrom(plan, id, from + 1)
  }

  function Continuations(plan: Plan, id: string): (r: seq<nat>)
    ensures forall k :: 0 <= k < |r| ==> r[k] < |plan.outputs| && Continues(plan, r[k], id)
  {
    ContinuationsFrom(plan, id, 0)
  }

  lemma {:induction false} MembersFromComplete(plan: Plan, id: string, from: nat, m: nat)
    requires from <= m < |plan.inputs| && Spends(plan, m, id)
    ensures m in MembersFrom(plan, id, from)
    decreases |plan.inputs| - from
  {
    if m != from { MembersFromComplete(plan, id, from + 1, m); }
  }

  lemma {:induction false} MembersFromAscending(plan: Plan, id: string, from: nat)
    ensures forall a, b :: 0 <= a < b < |MembersFrom(plan, id, from)| ==>
              MembersFrom(plan, id, from)[a] < MembersFrom(plan, id, from)[b]
    decreases |plan.inputs| - from
  {
    if from < |plan.inputs| { MembersFromAscending(plan, id, from + 1); }
  }

  /** A family's members are exactly the inputs that spend its covenant, each once, in input order. */
  lemma MembersExact(plan: Plan, id: string)
    ensures forall m: nat :: m in Members(plan, id) <==> m < |plan.inputs| && Spends(plan, m, id)
    ensures forall a, b :: 0 <= a < b < |Members(plan, id)| ==> Members(plan, id)[a] < Members(plan, id)[b]
  {
    MembersFromAscending(plan, id, 0);
    forall m: nat | m < |plan.inputs| && Spends(plan, m, id) ensures m in Members(plan, id) {
      MembersFromComplete(plan, id, 0, m);
    }
  }

  lemma {:induction false} ContinuationsFromComplete(plan: Plan, id: string, from: nat, o: nat)
    requires from <= o < |plan.outputs| && Continues(plan, o, id)
    ensures o in ContinuationsFrom(plan, id, from)
    decreases |plan.outputs| - from
  {
    if o != from { ContinuationsFromComplete(plan, id, from + 1, o); }
  }

  lemma {:induction false} ContinuationsFromAscending(plan: Plan, id: string, from: nat)
    ensures forall a, b :: 0 <= a < b < |ContinuationsFrom(plan, id, from)| ==>
              ContinuationsFrom(plan, id, from)[a] < ContinuationsFrom(plan, id, from)[b]
    decreases |plan.outputs| - from
  {
    if from < |plan.outputs| { ContinuationsFromAscending(plan, id, from + 1); }
  }

  /** A covenant's continuations are exactly the outputs bound to it, each once, in output order. */
  lemma ContinuationsExact(plan: Plan, id: string)
    ensures forall o: nat :: o in Continuations(plan, id) <==> o < |plan.outputs| && Continues(plan, o, id)
    ensures forall a, b :: 0 <= a < b < |Continuations(plan, id)| ==>
              Continuations(plan, id)[a] < Continuations(plan, id)[b]
  {
    ContinuationsFromAscending(plan, id, 0);
    forall o: nat | o < |plan.outputs| && Continues(plan, o, id) ensures o in Continuations(plan, id) {
      ContinuationsFromComplete(plan, id, 0, o);
    }
  }

  const MAX_SAFE: int := 9007199254740991

  function IndexOf(names: seq<string>, name: string): (r: Option<nat>)
    ensures r.Some? ==> r.value < |names| && names[r.value] == name
    ensures r.None? ==> name !in names
  {
    if names == [] then None
    else if names[0] == name then Some(0)
    else match IndexOf(names[1..], name)
      case Some(i) => Some(i + 1)
      case None => None
  }

  /** silverDeclarationBound: a literal, or the integer a constructor parameter was given. */
  function BoundOf(f: Facts, b: Bound): (r: Option<int>)
  {
    match b
    case Literal(n) => if -MAX_SAFE <= n <= MAX_SAFE then Some(n) else None
    case Named(p) =>
      match IndexOf(f.ctorParams, p)
      case None => None
      case Some(i) =>
        if i < |f.ctorArgs| && f.ctorArgs[i].Int? && 0 <= f.ctorArgs[i].n <= MAX_SAFE then Some(f.ctorArgs[i].n)
          else None
  }

  /** The first declaration of a policy. */
  function DeclarationOf(ds: seq<Declaration>, policy: string): (r: Option<Declaration>)
    ensures r.Some? ==> r.value in ds && r.value.policy == policy
  {
    if ds == [] then None else if ds[0].policy == policy then Some(ds[0]) else DeclarationOf(ds[1..], policy)
  }

  /** The first next state the plan declares for a covenant. */
  function NextOf(ns: seq<NextState>, id: string): (r: Option<NextState>)
    ensures r.Some? ==> r.value in ns && Lower(r.value.covenantId) == id
  {
    if ns == [] then None else if Lower(ns[0].covenantId) == id then Some(ns[0]) else NextOf(ns[1..], id)
  }

  /** It is the first entry for the covenant, in the plan's order. */
  lemma {:induction false} NextOfExact(ns: seq<NextState>, id: string, n: NextState)
    ensures NextOf(ns, id) == Some(n) <==>
              exists i :: 0 <= i < |ns| && ns[i] == n && Lower(n.covenantId) == id && NoneBefore(ns, id, i)
  {
    hide Lower;
    if ns != [] && Lower(ns[0].covenantId) != id {
      NextOfExact(ns[1..], id, n);
      if i :| 0 <= i < |ns[1..]| && ns[1..][i] == n && Lower(n.covenantId) == id && NoneBefore(ns[1..], id, i) {
        assert ns[i + 1] == n && NoneBefore(ns, id, i + 1);
      }
      if i :| 0 <= i < |ns| && ns[i] == n && Lower(n.covenantId) == id && NoneBefore(ns, id, i) {
        assert ns[1..][i - 1] == n && NoneBefore(ns[1..], id, i - 1);
      }
    } else if ns != [] {
      assert NoneBefore(ns, id, 0);
    }
  }

  ghost predicate NoneBefore(ns: seq<NextState>, id: string, i: int)
    requires i <= |ns|
  {
    forall j :: 0 <= j < i ==> Lower(ns[j].covenantId) != id
  }

  /** The contract reference of a covenant input. */
  function RefOf(plan: Plan, i: nat): (r: ContractRef)
    requires i < |plan.inputs| && plan.inputs[i].contract.Some?
  {
    plan.inputs[i].contract.value
  }

  /** What a family's leader decides: its facts, policy, declaration and bounds. */
  datatype Lead = Lead(facts: Facts, policy: string, decl: Declaration, entry: string, from: int, to: int)

  /** The lead of a family, when its policy is declared, has an entry and has bounds. */
  function LeadOf(plan: Plan, w: World, leader: nat): (r: Option<Lead>)
    requires leader < |plan.inputs|
  {
    if plan.inputs[leader].contract.None? || FactsOf(plan, w, leader).None? then None
    else
      var f := FactsOf(plan, w, leader).value;
      var policy := RefOf(plan, leader).policy;
      var decl := DeclarationOf(f.declarations, policy);
      if policy !in f.policyEntries || f.policyEntries[policy] == "" || decl.None? then None
      else
        var from, to := BoundOf(f, decl.value.from), BoundOf(f, decl.value.to);
        if from.None? || to.None? then None
        else Some(Lead(f, policy, decl.value, f.policyEntries[policy], from.value, to.value))
  }

  /** A bound is a safe literal, or names a constructor parameter that was given a safe natural number. */
  ghost predicate BoundIs(f: Facts, b: Bound, n: int)
  {
    match b
    case Literal(k) => k == n && -MAX_SAFE <= n <= MAX_SAFE
    case Named(p) =>
      exists i :: 0 <= i < |f.ctorParams| && f.ctorParams[i] == p && p !in f.ctorParams[..i]
                  && i < |f.ctorArgs| && f.ctorArgs[i] == Int(n) && 0 <= n <= MAX_SAFE
  }

  /** The first declaration of a policy, and its position. */
  ghost predicate FirstDeclaration(ds: seq<Declaration>, policy: string, d: Declaration)
  {
    exists i :: 0 <= i < |ds| && ds[i] == d && d.policy == policy && forall k :: 0 <= k < i ==> ds[k].policy != policy
  }

  lemma BoundExact(f: Facts, b: Bound, n: int)
    ensures BoundOf(f, b) == Some(n) <==> BoundIs(f, b, n)
  {
    if b.Named? {
      FirstIndex(f.ctorParams, b.param);
    }
  }

  lemma {:induction false} FirstIndex(names: seq<string>, name: string)
    ensures IndexOf(names, name).Some? ==> name !in names[..IndexOf(names, name).value]
    ensures forall i :: 0 <= i < |names| && names[i] == name && name !in names[..i] ==> IndexOf(names, name) == Some(i)
  {
    if names != [] && names[0] != name {
      FirstIndex(names[1..], name);
      assert forall i :: 0 < i <= |names| ==> names[..i] == [names[0]] + names[1..][..i - 1];
    }
  }

  lemma {:induction false} DeclarationExact(ds: seq<Declaration>, policy: string, d: Declaration)
    ensures DeclarationOf(ds, policy) == Some(d) <==> FirstDeclaration(ds, policy, d)
  {
    if ds != [] {
      if ds[0].policy != policy {
        DeclarationExact(ds[1..], policy, d);
        if FirstDeclaration(ds[1..], policy, d) {
          var i :| 0 <= i < |ds[1..]| && ds[1..][i] == d && forall k :: 0 <= k < i ==> ds[1..][k].policy != policy;
          assert ds[i + 1] == d && forall k :: 0 <= k < i + 1 ==> k == 0 || ds[k] == ds[1..][k - 1];
        }
        if FirstDeclaration(ds, policy, d) {
          var i :| 0 <= i < |ds| && ds[i] == d && forall k :: 0 <= k < i ==> ds[k].policy != policy;
          assert ds[1..][i - 1] == d && forall k :: 0 <= k < i - 1 ==> ds[1..][k] == ds[k + 1];
        }
      }
    }
  }

  /**
   * What a lead means: it is the leader's contract, the policy it is spent through, that policy's first declaration and
   * its non-empty entry, and the declared bounds; and these exist together exactly when there is a lead.
   */
  lemma LeadExact(plan: Plan, w: World, leader: nat, lead: Lead)
    requires leader < |plan.inputs|
    ensures LeadOf(plan, w, leader) == Some(lead) <==>
            && plan.inputs[leader].contract.Some? && FactsOf(plan, w, leader) == Some(lead.facts)
            && lead.policy == RefOf(plan, leader).policy
            && lead.policy in lead.facts.policyEntries && lead.facts.policyEntries[lead.policy] == lead.entry != ""
            && FirstDeclaration(lead.facts.declarations, lead.policy, lead.decl)
            && BoundIs(lead.facts, lead.decl.from, lead.from) && BoundIs(lead.facts, lead.decl.to, lead.to)
  {
    hide FactsOf, BoundOf, BoundIs, FirstDeclaration, DeclarationOf;
    if plan.inputs[leader].contract.Some? && FactsOf(plan, w, leader).Some? {
      var f := FactsOf(plan, w, leader).value;
      DeclarationExact(f.declarations, RefOf(plan, leader).policy, lead.decl);
      BoundExact(f, lead.decl.from, lead.from);
      BoundExact(f, lead.decl.to, lead.to);
    }
  }

  predicate Singleton(lead: Lead)
  {
    lead.from == 1 && lead.to == 1
  }

  /** A member moves with its leader: the same template, contract and record, through the same policy. */
  predicate MovesWith(plan: Plan, w: World, m: nat, lead: Lead)
    requires m < |plan.inputs|
  {
    && plan.inputs[m].contract.Some? && FactsOf(plan, w, m).Some?
    && FactsOf(plan, w, m).value.template == lead.facts.template
    && FactsOf(plan, w, m).value.contractName == lead.facts.contractName
    && FactsOf(plan, w, m).value.recordHash == lead.facts.recordHash
    && RefOf(plan, m).policy == lead.policy
  }

  /** Entries by role: an auth family has one input; a cov family a leader, then delegates, at most `from` in all. */
  predicate RolesHold(plan: Plan, members: seq<nat>, lead: Lead)
    requires forall k :: 0 <= k < |members| ==> members[k] < |plan.inputs| && plan.inputs[members[k]].contract.Some?
  {
    && members != []
    && RefOf(plan, members[0]).entry == lead.entry
    && (lead.decl.binding.Auth? ==> |members| == 1 && lead.facts.delegateEntry.None?)
    && (lead.decl.binding.Cov? ==>
          && |members| <= lead.from
          && (forall k :: 1 <= k < |members| ==> lead.facts.delegateEntry == Some(RefOf(plan, members[k]).entry)))
  }

  /** Continuations are authorized by the family, and a family without one authorizes no binding at all. */
  predicate LineageHolds(plan: Plan, members: seq<nat>, conts: seq<nat>)
    requires forall k :: 0 <= k < |conts| ==> conts[k] < |plan.outputs| && plan.outputs[conts[k]].covenant.Some?
  {
    && (forall k :: 0 <= k < |conts| ==> plan.outputs[conts[k]].covenant.value.authorizingInput in members)
    && (conts == [] ==> forall o :: 0 <= o < |plan.outputs| && plan.outputs[o].covenant.Some? ==>
                          plan.outputs[o].covenant.value.authorizingInput !in members)
  }

  /**
   * The plan declares the family's next state: by its leader, on its continuations in order; nothing ends undeclared.
   */
  predicate NextDeclared(plan: Plan, id: string, leader: nat, conts: seq<nat>, lead: Lead)
  {
    var n := NextOf(plan.nextState, id);
    && n.Some? && n.value.input == leader && n.value.outputs == conts
    && (conts == [] ==> (Singleton(lead) ==> lead.decl.terminationAllowed) && n.value.next == Encoded([]))
    && (n.value.next.Recompiled? ==> Singleton(lead))
  }

  /** One covenant's inputs and outputs make one declared transition. */
  predicate FamilyHolds(plan: Plan, w: World, id: string)
  {
    var members, conts := Members(plan, id), Continuations(plan, id);
    && members != []
    && LeadOf(plan, w, members[0]).Some?
    && var lead := LeadOf(plan, w, members[0]).value;
    && (forall k :: 0 <= k < |members| ==> MovesWith(plan, w, members[k], lead))
    && RolesHold(plan, members, lead)
    && LineageHolds(plan, members, conts)
    && |conts| <= lead.to
    && NextDeclared(plan, id, members[0], conts, lead)
  }

  /** Every family of the plan holds. */
  ghost predicate FamiliesHold(plan: Plan, w: World)
  {
    forall i :: 0 <= i < |plan.inputs| && plan.inputs[i].kind.CovenantKind? && plan.inputs[i].covenantId.Some? ==>
      FamilyHolds(plan, w, Lower(plan.inputs[i].covenantId.value))
  }

  // ----- bindings, genesis, successors

  /** A bound output continues a covenant that an input of this plan spends, authorized by such an input. */
  predicate BindingHasOrigin(plan: Plan, o: nat)
    requires o < |plan.outputs|
  {
    plan.outputs[o].covenant.Some? ==>
      plan.outputs[o].covenant.value.authorizingInput in Members(plan, Lower(plan.outputs[o].covenant.value.covenantId))
  }

  function AuthOutputs(plan: Plan, w: World, outputs: seq<nat>): (r: seq<AuthOutput>)
    requires forall k :: 0 <= k < |outputs| ==> outputs[k] < |plan.outputs|
    ensures |r| == |outputs|
  {
    if outputs == [] then []
    else
      var x := plan.outputs[outputs[0]];
      [AuthOutput(outputs[0], x.amount, match w.scriptOf(x.address) case Some(s) => s case None => "")]
      + AuthOutputs(plan, w, outputs[1..])
  }

  /** The covenant id the network gives a genesis group. */
  function GenesisId(plan: Plan, w: World, g: Genesis): (id: string)
    requires GroupShape(plan, g)
  {
    w.covenantIdOf(plan.inputs[g.authorizingInput].outpoint, AuthOutputs(plan, w, g.outputs))
  }

  /**
   * A genesis group has the id the plan expects, and each output is the lock of its contract, at its state if one is
   * given.
   */
  predicate GenesisHolds(plan: Plan, w: World, g: Genesis)
    requires GroupShape(plan, g)
  {
    && (g.covenantId.Some? ==> GenesisId(plan, w, g) == Lower(g.covenantId.value))
    && g.contract.Some?
    && var f := w.facts(g.contract.value.recordHash, g.contract.value.contract);
    && f.Some? && f.value.recordHash == g.contract.value.recordHash
    && f.value.artifactSha == g.contract.value.artifactSha
    && forall k :: 0 <= k < |g.outputs| ==>
         w.scriptOf(plan.outputs[g.outputs[k]].address).Some?
         && (if g.states.Some? then w.lockAt(f.value, g.states.value[k]) else Some(f.value.lock))
            == w.scriptOf(plan.outputs[g.outputs[k]].address)
  }

  /** A family that declares encoded states declares one per continuation. */
  lemma NextStatesFit(plan: Plan, w: World, id: string)
    requires Shape(plan) && FamilyHolds(plan, w, id)
    ensures var n := NextOf(plan.nextState, id).value;
            n.next.Encoded? ==> |n.next.states| == |Continuations(plan, id)|
  {
    hide Members, Continuations, LeadOf, MovesWith, RolesHold, LineageHolds;
    var n := NextOf(plan.nextState, id).value;
    var k :| 0 <= k < |plan.nextState| && plan.nextState[k] == n;
    assert NextShape(plan, plan.nextState[k]);
  }

  /**
   * Each continuation is locked to its declared successor: the k-th to the k-th state, or the one to the recompiled
   * one.
   */
  predicate SuccessorHolds(plan: Plan, w: World, id: string)
    requires FamilyHolds(plan, w, id) && Shape(plan)
  {
    var leader, conts := Members(plan, id)[0], Continuations(plan, id);
    var lead := LeadOf(plan, w, leader).value;
    var n := NextOf(plan.nextState, id).value;
    match n.next
    case Encoded(states) =>
      forall k :: 0 <= k < |states| && k < |conts| ==>
        w.lockAt(lead.facts, states[k]).Some?
          && w.lockAt(lead.facts, states[k]) == w.scriptOf(plan.outputs[conts[k]].address)
    case Recompiled(sha) =>
      && w.successor(leader).Some?
      && var s := w.successor(leader).value;
      && s.template == lead.facts.template && s.bytecode != lead.facts.bytecode && s.artifactSha == sha
      && conts != [] && w.scriptOf(plan.outputs[conts[0]].address) == Some(s.lock)
  }

  // ----- authorization

  /** The states an input's entry must be given: the declared ones at its family's leader, none elsewhere. */
  function StatesFor(plan: Plan, i: nat): (r: Option<seq<State>>)
    requires i < |plan.inputs| && plan.inputs[i].covenantId.Some?
  {
    var id := Lower(plan.inputs[i].covenantId.value);
    var members := Members(plan, id);
    if members == [] || members[0] != i then None
    else match NextOf(plan.nextState, id)
      case Some(n) => if n.next.Encoded? then Some(n.next.states) else None
      case None => None
  }

  function AsObjects(states: seq<State>): (r: seq<Sil>)
    ensures |r| == |states|
    ensures forall k :: 0 <= k < |states| ==> r[k] == Object(states[k])
  {
    seq(|states|, k requires 0 <= k < |states| => Object(states[k]))
  }

  /** An entry parameter that takes the new state, or states, is given exactly the declared ones. */
  predicate StateArgument(p: ParamKind, args: seq<PlanArg>, k: nat, want: Option<seq<State>>)
  {
    match p
    case OtherParam => true
    case StateParam =>
      && want.Some? && k < |args| && args[k].Value? && |want.value| == 1
      && SameValue(args[k].value, Object(want.value[0]))
    case StatesParam =>
      && want.Some? && k < |args| && args[k].Value?
      && SameValue(args[k].value, Array(AsObjects(want.value)))
  }

  function ParamsOf(f: Facts, entry: string): (r: seq<ParamKind>)
  {
    if entry in f.entries then f.entries[entry] else []
  }

  /**
   * A contract input calls its entry with arguments it takes, in slots HardKAS can match, signed as planned if signed.
   */
  predicate Authorized(plan: Plan, w: World, i: nat)
    requires i < |plan.inputs| && InputShape(plan.inputs[i])
  {
    var x := plan.inputs[i];
    x.kind.P2pk? ||
    (&& x.contract.Some? && FactsOf(plan, w, i).Some?
     && var f, c := FactsOf(plan, w, i).value, x.contract.value;
     && (x.kind.P2sh? ==> c.entry in f.entries)
     && (x.kind.CovenantKind? ==>
           forall k :: 0 <= k < |ParamsOf(f, c.entry)| ==>
             StateArgument(ParamsOf(f, c.entry)[k], c.args, k, StatesFor(plan, i)))
     && w.unlock(f, c.entry, c.args, false).Some?
     && w.slotsResolved(f, c.entry, c.args)
     && (w.signatureScripts.Some? && i < |w.signatureScripts.value| ==>
           && w.unlock(f, c.entry, c.args, true).Some?
           && SignedAsPlanned(Lower(w.signatureScripts.value[i]), Lower(w.unlock(f, c.entry, c.args, false).value),
                              Lower(w.unlock(f, c.entry, c.args, true).value))))
  }

  /** isPlannedUnlock of the two placeholder unlocks. */
  predicate SignedAsPlanned(signed: string, zero: string, ones: string)
  {
    |signed| == |zero| == |ones| && PlannedUnlock.ScanFrom(signed, zero, ones, 0, false)
  }

  predicate SignedP2pk(s: string)
  {
    && |s| == 132 && s[..2] == "41" && s[130..] == "01"
    && forall i :: 2 <= i < 130 ==> '0' <= s[i] <= '9' || 'a' <= s[i] <= 'f'
  }

  /** A signed transaction has one script per input, and each P2PK input one SIGHASH_ALL signature. */
  predicate ScriptsHold(plan: Plan, w: World)
  {
    w.signatureScripts.Some? ==>
      && |w.signatureScripts.value| == |plan.inputs|
      && forall i :: 0 <= i < |plan.inputs| && plan.inputs[i].kind.P2pk? ==>
           SignedP2pk(Lower(w.signatureScripts.value[i]))
  }

  /** The output belongs to some genesis group. */
  predicate InGroup(plan: Plan, o: nat)
  {
    exists g :: 0 <= g < |plan.groups| && o in plan.groups[g].outputs
  }

  /** Every output is a continuation, a genesis output, a declared payment, or change to the funder. */
  predicate OutputDeclared(plan: Plan, w: World, o: nat)
    requires o < |plan.outputs|
  {
    && (plan.outputs[o].covenant.Some? || InGroup(plan, o) || plan.outputs[o].role.Payment?
        || (plan.outputs[o].role.Change? && plan.funder == Some(plan.outputs[o].address)))
    && w.scriptOf(plan.outputs[o].address).Some?
  }

  predicate FeeHolds(plan: Plan, w: World)
  {
    && w.minimumFee(plan).Some? && Fee(plan) >= w.minimumFee(plan).value
    && plan.storageMass == w.storageMass(plan)
    && w.networkAllowed(plan.networkId)
  }

  // ----- the whole

  /** A plan the node's outputs and the contracts' facts show to be the contracts' own transition. */
  ghost predicate Transition(plan: Plan, node: Utxos, w: World)
  {
    && Shape(plan)
    && (forall i :: 0 <= i < |plan.inputs| ==> RealInput(plan, node, i) && KindAgrees(plan, node, w, i))
    && FamiliesHold(plan, w)
    && (forall o :: 0 <= o < |plan.outputs| ==> BindingHasOrigin(plan, o))
    && (forall g :: 0 <= g < |plan.groups| ==> GenesisHolds(plan, w, plan.groups[g]))
    && (forall i :: 0 <= i < |plan.inputs| && plan.inputs[i].kind.CovenantKind? ==>
          SuccessorHolds(plan, w, Lower(plan.inputs[i].covenantId.value)))
    && (forall i :: 0 <= i < |plan.inputs| ==> Authorized(plan, w, i))
    && ScriptsHold(plan, w)
    && (forall o :: 0 <= o < |plan.outputs| ==> OutputDeclared(plan, w, o))
    && FeeHolds(plan, w)
  }

  /** The states a family declares, when it declares them. */
  function DeclaredStates(plan: Plan, id: string): (r: Option<seq<State>>)
  {
    match NextOf(plan.nextState, id)
    case Some(n) => if n.next.Encoded? then Some(n.next.states) else None
    case None => None
  }

  /**
   * What acceptance says of the family of any covenant input. Its members are all the inputs of that covenant, of one
   * template. Under an auth policy there is one; under a cov policy the lowest input leads, every other one calls the
   * delegate entry, and there are at most `from`. There are at most `to` continuations, and of declared states the k-th
   * is the lock of the k-th continuation.
   */
  lemma AcceptedTopology(plan: Plan, node: Utxos, w: World, i: nat)
    requires Transition(plan, node, w) && i < |plan.inputs| && plan.inputs[i].kind.CovenantKind?
    ensures plan.inputs[i].covenantId.Some?
    ensures var id := Lower(plan.inputs[i].covenantId.value);
            var members, conts := Members(plan, id), Continuations(plan, id);
            && i in members && (forall k :: 1 <= k < |members| ==> members[0] < members[k])
            && LeadOf(plan, w, members[0]).Some?
            && var lead := LeadOf(plan, w, members[0]).value;
            && FactsOf(plan, w, i).Some? && FactsOf(plan, w, i).value.template == lead.facts.template
            && (lead.decl.binding.Auth? ==> members == [i])
            && (lead.decl.binding.Cov? ==> |members| <= lead.from)
            && RefOf(plan, members[0]).entry == lead.entry
            && (lead.decl.binding.Cov? && i != members[0] ==> lead.facts.delegateEntry == Some(RefOf(plan, i).entry))
            && |conts| <= lead.to
            && (DeclaredStates(plan, id).Some? ==>
                  && |DeclaredStates(plan, id).value| == |conts|
                  && forall k :: 0 <= k < |conts| ==>
                       && w.lockAt(lead.facts, DeclaredStates(plan, id).value[k]).Some?
                       && w.lockAt(lead.facts, DeclaredStates(plan, id).value[k])
                            == w.scriptOf(plan.outputs[conts[k]].address))
  {
    hide RealInput, KindAgrees, Authorized, ScriptsHold, OutputDeclared, FeeHolds, GenesisHolds, BindingHasOrigin,
         Members, Continuations, LeadOf, Lower, NextShape, GroupShape, Fee;
    assert InputShape(plan.inputs[i]);
    var id := Lower(plan.inputs[i].covenantId.value);
    var members := Members(plan, id);
    MembersExact(plan, id);
    assert Spends(plan, i, id) && i in members;
    assert FamilyHolds(plan, w, id) && SuccessorHolds(plan, w, id);
    NextStatesFit(plan, w, id);
    var k :| 0 <= k < |members| && members[k] == i;
    assert MovesWith(plan, w, members[k], LeadOf(plan, w, members[0]).value);
  }

  /** Every state parameter of an accepted covenant input's entry is given the states its family declares. */
  lemma AcceptedStateArguments(plan: Plan, node: Utxos, w: World, i: nat, k: nat)
    requires Transition(plan, node, w) && i < |plan.inputs| && plan.inputs[i].kind.CovenantKind?
    requires plan.inputs[i].contract.Some? && FactsOf(plan, w, i).Some?
    requires k < |ParamsOf(FactsOf(plan, w, i).value, RefOf(plan, i).entry)|
    requires ParamsOf(FactsOf(plan, w, i).value, RefOf(plan, i).entry)[k] != OtherParam
    ensures plan.inputs[i].covenantId.Some?
    ensures var id := Lower(plan.inputs[i].covenantId.value);
            var args := RefOf(plan, i).args;
            && Members(plan, id) != [] && i == Members(plan, id)[0]
            && DeclaredStates(plan, id).Some?
            && var states := DeclaredStates(plan, id).value;
            && |states| == |Continuations(plan, id)| && k < |args| && args[k].Value?
            && (ParamsOf(FactsOf(plan, w, i).value, RefOf(plan, i).entry)[k].StateParam? ==>
                  |states| == 1 && SameValue(args[k].value, Object(states[0])))
            && (ParamsOf(FactsOf(plan, w, i).value, RefOf(plan, i).entry)[k].StatesParam? ==>
                  SameValue(args[k].value, Array(AsObjects(states))))
  {
    hide RealInput, KindAgrees, ScriptsHold, OutputDeclared, FeeHolds, GenesisHolds, BindingHasOrigin, SuccessorHolds,
         Members, Continuations, LeadOf, Lower, NextShape, GroupShape, Fee, MovesWith, RolesHold, LineageHolds,
         ParamsOf, SameValue, SignedAsPlanned;
    assert InputShape(plan.inputs[i]) && Authorized(plan, w, i);
    var id := Lower(plan.inputs[i].covenantId.value);
    assert FamilyHolds(plan, w, id);
    NextStatesFit(plan, w, id);
    assert StateArgument(ParamsOf(FactsOf(plan, w, i).value, RefOf(plan, i).entry)[k], RefOf(plan, i).args, k,
                         StatesFor(plan, i));
  }
}
