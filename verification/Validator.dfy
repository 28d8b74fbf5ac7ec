/**
 * validateV1Transition, step by step and loop by loop, proved to accept exactly the plans Covenant.Transition
 * describes.
 */
module Validator {
  import opened Common
  import opened Covenant
  import PlannedUnlock

  datatype Code =
    | PlanInvalid | InputNotUnspent | InputDiffersFromNode | CovenantP2pkUnsupported | CovenantInputUndeclared
    | FeeInputNotFunder | KeyDoesNotControlInput | RecordNotReproduced | LockMismatch
    | PolicyNotFound | FamilyTemplateMismatch | UnlockMismatch | BoundsUnknown | LineageInvalid | ArtifactInconsistent
    | LeaderPositionInvalid | TerminationNotDeclared | BindingOrphan | GenesisIdMismatch | GenesisScriptMismatch
    | SuccessorScriptMismatch | SuccessorTemplateChanged | SuccessorStateUnchanged | UnknownEntry | ArgumentInvalid
    | SlotUnresolved | SignedPlanMismatch | OutputUndeclared | MassAboveLimit | FeeBelowFloor | StorageMassDiffers
    | NetworkRefused

  /**
   * The steps, in the order they are taken: shape, real inputs, kinds, families, origins, genesis, successors, and so
   * on.
   */
  const STEPS: nat := 11

  /** The codes a step may give. */
  function CodesOf(step: nat): (r: set<Code>)
  {
    match step
    case 0 => {PlanInvalid}
    case 1 => {InputNotUnspent, InputDiffersFromNode}
    case 2 => {CovenantP2pkUnsupported, CovenantInputUndeclared, InputDiffersFromNode, PlanInvalid, FeeInputNotFunder,
               KeyDoesNotControlInput, RecordNotReproduced, LockMismatch}
    case 3 => {PolicyNotFound, BoundsUnknown, FamilyTemplateMismatch, UnlockMismatch, LineageInvalid,
      ArtifactInconsistent,
               LeaderPositionInvalid, TerminationNotDeclared, PlanInvalid}
    case 4 => {BindingOrphan}
    case 5 => {GenesisIdMismatch, GenesisScriptMismatch, PlanInvalid}
    case 6 => {SuccessorScriptMismatch, SuccessorTemplateChanged, SuccessorStateUnchanged, PlanInvalid}
    case 7 => {UnlockMismatch, UnknownEntry, ArgumentInvalid, SlotUnresolved, SignedPlanMismatch}
    case 8 => {SignedPlanMismatch}
    case 9 => {OutputUndeclared, PlanInvalid}
    case 10 => {MassAboveLimit, FeeBelowFloor, StorageMassDiffers, NetworkRefused}
    case _ => {}
  }

  /** The plan passes the first `k` steps. */
  ghost predicate Passes(k: nat, plan: Plan, node: Utxos, w: World)
  {
    && (k >= 1 ==> Shape(plan))
    && (k >= 2 ==> forall i :: 0 <= i < |plan.inputs| ==> RealInput(plan, node, i))
    && (k >= 3 ==> forall i :: 0 <= i < |plan.inputs| ==> RealInput(plan, node, i) && KindAgrees(plan, node, w, i))
    && (k >= 4 ==> FamiliesHold(plan, w))
    && (k >= 5 ==> forall o :: 0 <= o < |plan.outputs| ==> BindingHasOrigin(plan, o))
    && (k >= 6 ==> forall g :: 0 <= g < |plan.groups| ==> GenesisHolds(plan, w, plan.groups[g]))
    && (k >= 7 ==> SuccessorsHold(plan, w))
    && (k >= 8 ==> forall i :: 0 <= i < |plan.inputs| ==> Authorized(plan, w, i))
    && (k >= 9 ==> ScriptsHold(plan, w))
    && (k >= 10 ==> forall o :: 0 <= o < |plan.outputs| ==> OutputDeclared(plan, w, o))
    && (k >= 11 ==> FeeHolds(plan, w))
  }

  ghost predicate SuccessorsHold(plan: Plan, w: World)
    requires Shape(plan) && FamiliesHold(plan, w)
  {
    forall i :: 0 <= i < |plan.inputs| && plan.inputs[i].kind.CovenantKind? ==>
      SuccessorHolds(plan, w, Lower(plan.inputs[i].covenantId.value))
  }

  /** Step `k` is the first the plan fails, and the code is one of that step's. */
  ghost predicate RefusedAt(k: nat, code: Code, plan: Plan, node: Utxos, w: World)
  {
    Passes(k, plan, node, w) && !Passes(k + 1, plan, node, w) && code in CodesOf(k)
  }

  datatype Role = AuthRole | Leader | Delegate

  datatype Validated = Validated(fee: int, roles: map<nat, Role>)

  // ----- inputs

  method CheckRealInputs(plan: Plan, node: Utxos) returns (fault: Option<Code>)
    ensures fault.Some? ==> fault.value in CodesOf(1)
    ensures fault.None? <==> forall i :: 0 <= i < |plan.inputs| ==> RealInput(plan, node, i)
  {
    for i := 0 to |plan.inputs|
      invariant forall j :: 0 <= j < i ==> RealInput(plan, node, j)
    {
      var x := plan.inputs[i];
      assert RealInput(plan, node, i) <==>
             x.outpoint in node && node[x.outpoint].amount == x.amount
               && Lower(node[x.outpoint].script) == Lower(x.script);
      if x.outpoint !in node { return Some(InputNotUnspent); }
      var u := node[x.outpoint];
      if u.amount != x.amount { return Some(InputDiffersFromNode); }
      if Lower(u.script) != Lower(x.script) { return Some(InputDiffersFromNode); }
    }
    return None;
  }

  method CheckKind(plan: Plan, node: Utxos, w: World, i: nat) returns (fault: Option<Code>)
    requires i < |plan.inputs| && plan.inputs[i].outpoint in node && InputShape(plan.inputs[i])
    ensures fault.Some? ==> fault.value in CodesOf(2)
    ensures fault.None? <==> KindAgrees(plan, node, w, i)
  {
    var x, u := plan.inputs[i], node[plan.inputs[i].outpoint];
    if u.covenantId.Some? && !x.kind.CovenantKind? {
      return Some(if P2pkScript(Lower(u.script)) then CovenantP2pkUnsupported else CovenantInputUndeclared);
    }
    if x.kind.CovenantKind? && (u.covenantId.None? || Lower(u.covenantId.value) != Lower(x.covenantId.value)) {
      return Some(InputDiffersFromNode);
    }
    if x.kind.P2pk? {
      if !P2pkScript(Lower(x.script)) { return Some(PlanInvalid); }
      if plan.funder != Some(x.address) { return Some(FeeInputNotFunder); }
      if w.publicKeyOf.Some? {
        var pk := w.publicKeyOf.value(x.signer);
        if pk.None? || "20" + Lower(pk.value) != Lower(x.script)[4..70] { return Some(KeyDoesNotControlInput); }
      }
      return None;
    }
    if x.contract.None? { return Some(RecordNotReproduced); }
    var f := w.facts(x.contract.value.recordHash, x.contract.value.contract);
    if f.None? || !Reproduced(x.contract.value, f.value) { return Some(RecordNotReproduced); }
    if f.value.lock != Lower(x.script) { return Some(LockMismatch); }
    return None;
  }

  method CheckKinds(plan: Plan, node: Utxos, w: World) returns (fault: Option<Code>)
    requires forall i :: 0 <= i < |plan.inputs| ==> RealInput(plan, node, i) && InputShape(plan.inputs[i])
    ensures fault.Some? ==> fault.value in CodesOf(2)
    ensures fault.None? <==>
              forall i :: 0 <= i < |plan.inputs| ==> RealInput(plan, node, i) && KindAgrees(plan, node, w, i)
  {
    hide KindAgrees;
    for i := 0 to |plan.inputs|
      invariant forall j :: 0 <= j < i ==> KindAgrees(plan, node, w, j)
    {
      fault := CheckKind(plan, node, w, i);
      if fault.Some? { return; }
    }
    return None;
  }

  // ----- families

  /** What is still to come of a family's members when the inputs before `from` have been grouped. */
  ghost predicate Grouped(plan: Plan, families: map<string, seq<nat>>, from: nat)
  {
    && (forall id :: id in families ==>
          families[id] != [] && families[id] + MembersFrom(plan, id, from) == Members(plan, id))
    && (forall id :: id !in families ==> MembersFrom(plan, id, from) == Members(plan, id))
  }

  /** The map from each covenant id to the inputs that spend it, in input order, and the ids in order of appearance. */
  method GroupFamilies(plan: Plan) returns (order: seq<string>, families: map<string, seq<nat>>)
    requires forall i :: 0 <= i < |plan.inputs| ==> InputShape(plan.inputs[i])
    ensures forall id :: id in order <==> id in families
    ensures forall id :: id in families <==> Members(plan, id) != []
    ensures forall id :: id in families ==> families[id] == Members(plan, id)
  {
    hide MembersFrom, Lower;
    order, families := [], map[];
    MembersEnd(plan);
    for i := 0 to |plan.inputs|
      invariant Grouped(plan, families, i)
      invariant forall id :: id in order <==> id in families
    {
      var x := plan.inputs[i];
      ghost var before := families;
      if x.kind.CovenantKind? {
        var id := Lower(x.covenantId.value);
        if id !in families { order := order + [id]; }
        families := families[id := (if id in families then families[id] else []) + [i]];
      }
      GroupNext(plan, before, families, i);
    }
  }

  /** One family when one more input has been grouped. */
  ghost predicate GroupedOne(plan: Plan, families: map<string, seq<nat>>, from: nat, id: string)
  {
    if id in families then families[id] != [] && families[id] + MembersFrom(plan, id, from) == Members(plan, id)
    else MembersFrom(plan, id, from) == Members(plan, id)
  }

  /** Grouping input `i`. */
  ghost predicate GroupsInput(plan: Plan, before: map<string, seq<nat>>, after: map<string, seq<nat>>, i: nat)
    requires i < |plan.inputs| && InputShape(plan.inputs[i])
  {
    if plan.inputs[i].kind.CovenantKind? then
      var id := Lower(plan.inputs[i].covenantId.value);
      after == before[id := (if id in before then before[id] else []) + [i]]
    else after == before
  }

  lemma GroupNextOne(plan: Plan, before: map<string, seq<nat>>, after: map<string, seq<nat>>, i: nat, id: string)
    requires i < |plan.inputs| && InputShape(plan.inputs[i]) && GroupedOne(plan, before, i, id)
    requires GroupsInput(plan, before, after, i)
    ensures GroupedOne(plan, after, i + 1, id)
  {
    hide MembersFrom, Members, Lower;
    MembersStep(plan, id, i);
    var rest := MembersFrom(plan, id, i + 1);
    if Spends(plan, i, id) {
      var had := if id in before then before[id] else [];
      assert after[id] == had + [i];
      assert had + [i] + rest == had + ([i] + rest);
    } else {
      assert [] + rest == rest;
    }
  }

  lemma GroupNext(plan: Plan, before: map<string, seq<nat>>, after: map<string, seq<nat>>, i: nat)
    requires i < |plan.inputs| && InputShape(plan.inputs[i]) && Grouped(plan, before, i)
    requires GroupsInput(plan, before, after, i)
    ensures Grouped(plan, after, i + 1)
  {
    hide MembersFrom, Members, GroupsInput;
    var next := i + 1;
    forall id ensures GroupedOne(plan, after, next, id) {
      GroupNextOne(plan, before, after, i, id);
    }
    assert forall id :: id in after ==> GroupedOne(plan, after, next, id);
    assert forall id :: id !in after ==> GroupedOne(plan, after, next, id);
  }

  lemma MembersStep(plan: Plan, id: string, i: nat)
    requires i < |plan.inputs|
    ensures MembersFrom(plan, id, i) == (if Spends(plan, i, id) then [i] else []) + MembersFrom(plan, id, i + 1)
  {
    hide Spends;
  }

  lemma MembersEnd(plan: Plan)
    ensures forall id :: MembersFrom(plan, id, |plan.inputs|) == []
  {
  }

  lemma ContinuationsStep(plan: Plan, id: string, o: nat)
    requires o < |plan.outputs|
    ensures ContinuationsFrom(plan, id, o)
            == (if Continues(plan, o, id) then [o] else []) + ContinuationsFrom(plan, id, o + 1)
  {
    hide Continues;
  }

  lemma ContinuationsEnds(plan: Plan, id: string)
    ensures ContinuationsFrom(plan, id, 0) == Continuations(plan, id)
            && ContinuationsFrom(plan, id, |plan.outputs|) == []
  {
  }

  method CollectContinuations(plan: Plan, id: string) returns (conts: seq<nat>)
    ensures conts == Continuations(plan, id)
  {
    hide ContinuationsFrom, Continuations, Continues;
    conts := [];
    ContinuationsEnds(plan, id);
    for o := 0 to |plan.outputs|
      invariant conts + ContinuationsFrom(plan, id, o) == Continuations(plan, id)
    {
      ContinuationsStep(plan, id, o);
      if Continues(plan, o, id) { conts := conts + [o]; }
    }
  }

  method CheckLead(plan: Plan, w: World, leader: nat) returns (fault: Option<Code>, lead: Option<Lead>)
    requires leader < |plan.inputs| && plan.inputs[leader].contract.Some? && FactsOf(plan, w, leader).Some?
    ensures fault.Some? ==> fault.value in CodesOf(3)
    ensures fault.None? <==> LeadOf(plan, w, leader).Some?
    ensures lead == LeadOf(plan, w, leader)
  {
    var f := FactsOf(plan, w, leader).value;
    var policy := RefOf(plan, leader).policy;
    var decl := DeclarationOf(f.declarations, policy);
    if policy !in f.policyEntries || f.policyEntries[policy] == "" || decl.None? { return Some(PolicyNotFound), None; }
    var from, to := BoundOf(f, decl.value.from), BoundOf(f, decl.value.to);
    if from.None? || to.None? { return Some(BoundsUnknown), None; }
    return None, Some(Lead(f, policy, decl.value, f.policyEntries[policy], from.value, to.value));
  }

  /** Every member of a family names a contract whose facts are known. */
  ghost predicate Resolved(plan: Plan, w: World, members: seq<nat>)
  {
    forall k :: 0 <= k < |members| ==>
      members[k] < |plan.inputs| && plan.inputs[members[k]].contract.Some? && FactsOf(plan, w, members[k]).Some?
  }

  method CheckTemplate(plan: Plan, w: World, members: seq<nat>, lead: Lead) returns (fault: Option<Code>)
    requires Resolved(plan, w, members)
    ensures fault.Some? ==> fault.value in CodesOf(3)
    ensures fault.None? <==> forall k :: 0 <= k < |members| ==> MovesWith(plan, w, members[k], lead)
  {
    for k := 0 to |members|
      invariant forall j :: 0 <= j < k ==> MovesWith(plan, w, members[j], lead)
    {
      var f := FactsOf(plan, w, members[k]).value;
      if f.template != lead.facts.template || f.contractName != lead.facts.contractName
        || f.recordHash != lead.facts.recordHash {
        return Some(FamilyTemplateMismatch);
      }
      if RefOf(plan, members[k]).policy != lead.policy { return Some(UnlockMismatch); }
    }
    return None;
  }

  /** The roles of a family's inputs, as their binding gives them. */
  ghost predicate FamilyRoles(members: seq<nat>, lead: Lead, roles: map<nat, Role>)
  {
    forall k :: 0 <= k < |members| ==>
      members[k] in roles
      && roles[members[k]] == if lead.decl.binding.Auth? then AuthRole else if k == 0 then Leader else Delegate
  }

  /** The members after the leader call the delegate entry. */
  method CheckDelegates(plan: Plan, w: World, members: seq<nat>, lead: Lead, roles0: map<nat, Role>)
    returns (fault: Option<Code>, roles: map<nat, Role>)
    requires Resolved(plan, w, members) && members != []
    requires forall a, b :: 0 <= a < b < |members| ==> members[a] < members[b]
    ensures fault.Some? ==> fault.value in CodesOf(3)
    ensures fault.None? <==>
              forall k :: 1 <= k < |members| ==> lead.facts.delegateEntry == Some(RefOf(plan, members[k]).entry)
    ensures fault.None? ==> forall k :: 1 <= k < |members| ==> members[k] in roles && roles[members[k]] == Delegate
    ensures forall m :: m in roles ==> m in roles0 || m in members
    ensures forall m :: m in roles0 && (m !in members || m == members[0]) ==> m in roles && roles[m] == roles0[m]
  {
    hide FactsOf;
    roles := roles0;
    for k := 1 to |members|
      invariant forall j :: 1 <= j < k ==> lead.facts.delegateEntry == Some(RefOf(plan, members[j]).entry)
      invariant forall j :: 1 <= j < k ==> members[j] in roles && roles[members[j]] == Delegate
      invariant forall m :: m in roles ==> m in roles0 || m in members
      invariant forall m :: m in roles0 && (m !in members || m == members[0]) ==> m in roles && roles[m] == roles0[m]
    {
      var m := members[k];
      if lead.facts.delegateEntry != Some(RefOf(plan, m).entry) {
        return Some(if RefOf(plan, m).entry == lead.entry then LeaderPositionInvalid else UnlockMismatch), roles;
      }
      roles := roles[m := Delegate];
    }
    return None, roles;
  }

  method CheckRoles(plan: Plan, w: World, members: seq<nat>, lead: Lead, roles0: map<nat, Role>)
    returns (fault: Option<Code>, roles: map<nat, Role>)
    requires Resolved(plan, w, members) && members != []
    requires forall a, b :: 0 <= a < b < |members| ==> members[a] < members[b]
    ensures fault.Some? ==> fault.value in CodesOf(3)
    ensures fault.None? <==> RolesHold(plan, members, lead)
    ensures fault.None? ==> FamilyRoles(members, lead, roles)
    ensures forall m :: m in roles ==> m in roles0 || m in members
    ensures forall m :: m in roles0 && m !in members ==> m in roles && roles[m] == roles0[m]
  {
    hide FactsOf;
    var leader := members[0];
    roles := roles0;
    if lead.decl.binding.Auth? {
      if |members| > 1 { return Some(LineageInvalid), roles; }
      if lead.facts.delegateEntry.Some? { return Some(ArtifactInconsistent), roles; }
      if RefOf(plan, leader).entry != lead.entry { return Some(UnlockMismatch), roles; }
      roles := roles[leader := AuthRole];
    } else {
      if |members| > lead.from { return Some(LineageInvalid), roles; }
      if RefOf(plan, leader).entry != lead.entry {
        return Some(if Some(RefOf(plan, leader).entry) == lead.facts.delegateEntry then LeaderPositionInvalid
                    else UnlockMismatch), roles;
      }
      roles := roles[leader := Leader];
      fault, roles := CheckDelegates(plan, w, members, lead, roles);
      return;
    }
    return None, roles;
  }

  method CheckLineage(plan: Plan, id: string, members: seq<nat>, conts: seq<nat>) returns (fault: Option<Code>)
    requires conts == Continuations(plan, id)
    ensures fault.Some? ==> fault.value in CodesOf(3)
    ensures fault.None? <==> LineageHolds(plan, members, conts)
  {
    for k := 0 to |conts|
      invariant forall j :: 0 <= j < k ==> plan.outputs[conts[j]].covenant.value.authorizingInput in members
    {
      if plan.outputs[conts[k]].covenant.value.authorizingInput !in members { return Some(LineageInvalid); }
    }
    if conts == [] {
      for o := 0 to |plan.outputs|
        invariant forall p :: 0 <= p < o && plan.outputs[p].covenant.Some? ==>
                    plan.outputs[p].covenant.value.authorizingInput !in members
      {
        if plan.outputs[o].covenant.Some?
          && plan.outputs[o].covenant.value.authorizingInput in members { return Some(LineageInvalid); }
      }
    }
    return None;
  }

  method CheckNext(plan: Plan, id: string, leader: nat, conts: seq<nat>, lead: Lead) returns (fault: Option<Code>)
    ensures fault.Some? ==> fault.value in CodesOf(3)
    ensures fault.None? <==> NextDeclared(plan, id, leader, conts, lead)
  {
    var declared := NextOf(plan.nextState, id);
    if conts == [] {
      if Singleton(lead) && !lead.decl.terminationAllowed { return Some(TerminationNotDeclared); }
      if declared.None? || !declared.value.next.Encoded?
        || declared.value.next.states != [] { return Some(PlanInvalid); }
    }
    if declared.None? { return Some(PlanInvalid); }
    if declared.value.input != leader { return Some(PlanInvalid); }
    if declared.value.outputs != conts { return Some(PlanInvalid); }
    if declared.value.next.Recompiled? && !Singleton(lead) { return Some(PlanInvalid); }
    return None;
  }

  method CheckFamily(plan: Plan, w: World, id: string, members: seq<nat>, roles0: map<nat, Role>)
    returns (fault: Option<Code>, roles: map<nat, Role>)
    requires members == Members(plan, id) && members != [] && Resolved(plan, w, members)
    ensures fault.Some? ==> fault.value in CodesOf(3)
    ensures fault.None? <==> FamilyHolds(plan, w, id)
    ensures fault.None? ==> FamilyDone(plan, w, id, roles)
    ensures forall m :: m in roles ==> m in roles0 || m in members
    ensures forall m :: m in roles0 && m !in members ==> m in roles && roles[m] == roles0[m]
  {
    hide MovesWith, RolesHold, LineageHolds, NextDeclared, LeadOf, FamilyRoles;
    roles := roles0;
    MembersExact(plan, id);
    var lead;
    fault, lead := CheckLead(plan, w, members[0]);
    if fault.Some? { return; }
    fault := CheckTemplate(plan, w, members, lead.value);
    if fault.Some? { return; }
    var conts := CollectContinuations(plan, id);
    fault, roles := CheckRoles(plan, w, members, lead.value, roles0);
    if fault.Some? { return; }
    fault := CheckLineage(plan, id, members, conts);
    if fault.Some? { return; }
    if |conts| > lead.value.to { return Some(LineageInvalid), roles; }
    fault := CheckNext(plan, id, members[0], conts, lead.value);
  }

  /** The role of a covenant input in an accepted plan. */
  function RoleOf(plan: Plan, w: World, i: nat): (r: Role)
    requires i < |plan.inputs| && plan.inputs[i].covenantId.Some?
    requires FamilyHolds(plan, w, Lower(plan.inputs[i].covenantId.value))
  {
    var members := Members(plan, Lower(plan.inputs[i].covenantId.value));
    if LeadOf(plan, w, members[0]).value.decl.binding.Auth? then AuthRole else if members[0] == i then Leader
      else Delegate
  }

  /** Every covenant input names a contract whose facts are known. */
  ghost predicate CovenantsResolved(plan: Plan, w: World)
  {
    forall i :: 0 <= i < |plan.inputs| && plan.inputs[i].kind.CovenantKind? ==>
      plan.inputs[i].covenantId.Some? && plan.inputs[i].contract.Some? && FactsOf(plan, w, i).Some?
  }

  /** A checked family: it holds, and its inputs have their roles. */
  ghost predicate FamilyDone(plan: Plan, w: World, id: string, roles: map<nat, Role>)
  {
    FamilyHolds(plan, w, id) && FamilyRoles(Members(plan, id), LeadOf(plan, w, Members(plan, id)[0]).value, roles)
  }

  /** The roles given so far: those of the inputs of the families already checked, and no other. */
  ghost predicate RolesSoFar(plan: Plan, w: World, done: seq<string>, roles: map<nat, Role>)
  {
    && (forall id :: id in done ==> FamilyDone(plan, w, id, roles))
    && (forall m :: m in roles ==> exists id :: id in done && m in Members(plan, id))
  }

  lemma MembersResolved(plan: Plan, w: World, id: string)
    requires CovenantsResolved(plan, w)
    ensures Resolved(plan, w, Members(plan, id))
  {
    hide Members, FactsOf;
  }

  lemma FamilyRefused(plan: Plan, w: World, id: string)
    requires Members(plan, id) != [] && !FamilyHolds(plan, w, id)
    ensures !FamiliesHold(plan, w)
  {
    hide FamilyHolds, Members, Lower;
    assert Spends(plan, Members(plan, id)[0], id);
  }

  /** Families of different covenants share no input. */
  lemma FamiliesDisjoint(plan: Plan, a: string, b: string, m: nat)
    requires m in Members(plan, a) && m in Members(plan, b)
    ensures a == b
  {
    MembersExact(plan, a);
    MembersExact(plan, b);
  }

  lemma RolesAdvance(plan: Plan, w: World, order: seq<string>, k: nat, before: map<nat, Role>, roles: map<nat, Role>)
    requires k < |order| && RolesSoFar(plan, w, order[..k], before)
    requires FamilyDone(plan, w, order[k], roles)
    requires roles.Keys <= before.Keys + set m | m in Members(plan, order[k])
    requires forall m :: m in before && m !in Members(plan, order[k]) ==> m in roles && roles[m] == before[m]
    ensures RolesSoFar(plan, w, order[..k + 1], roles)
  {
    hide FamilyDone, Members;
    var id := order[k];
    assert order[..k + 1] == order[..k] + [id];
    forall d | d in order[..k + 1] ensures FamilyDone(plan, w, d, roles) {
      if d != id {
        assert d in order[..k];
        RolesKept(plan, w, d, id, before, roles);
      }
    }
    forall m | m in roles ensures exists d :: d in order[..k + 1] && m in Members(plan, d) {
      if m in Members(plan, id) {
        assert id in order[..k + 1];
      } else {
        var d :| d in order[..k] && m in Members(plan, d);
        assert d in order[..k + 1];
      }
    }
  }

  lemma RolesKept(plan: Plan, w: World, d: string, id: string, before: map<nat, Role>, roles: map<nat, Role>)
    requires d != id && FamilyDone(plan, w, d, before)
    requires forall m :: m in before && m !in Members(plan, id) ==> m in roles && roles[m] == before[m]
    ensures FamilyDone(plan, w, d, roles)
  {
    hide Members, LeadOf, FamilyHolds;
    var ms := Members(plan, d);
    forall k | 0 <= k < |ms| ensures ms[k] !in Members(plan, id) {
      if ms[k] in Members(plan, id) { FamiliesDisjoint(plan, d, id, ms[k]); }
    }
  }

  lemma FamiliesComplete(plan: Plan, w: World, order: seq<string>, roles: map<nat, Role>)
    requires RolesSoFar(plan, w, order, roles)
    requires forall id :: Members(plan, id) != [] ==> id in order
    ensures FamiliesHold(plan, w)
    ensures forall i: nat :: i in roles ==> i < |plan.inputs| && plan.inputs[i].kind.CovenantKind?
    ensures forall i: nat ::
              i < |plan.inputs| && plan.inputs[i].kind.CovenantKind? && plan.inputs[i].covenantId.Some? ==>
                i in roles && roles[i] == RoleOf(plan, w, i)
  {
    hide Members, LeadOf;
    forall i: nat | i < |plan.inputs| && plan.inputs[i].kind.CovenantKind? && plan.inputs[i].covenantId.Some?
      ensures FamilyHolds(plan, w, Lower(plan.inputs[i].covenantId.value))
      ensures i in roles && roles[i] == RoleOf(plan, w, i)
    {
      var id := Lower(plan.inputs[i].covenantId.value);
      MembersExact(plan, id);
      var ms := Members(plan, id);
      assert i in ms;
      var k :| 0 <= k < |ms| && ms[k] == i;
    }
    forall i: nat | i in roles ensures i < |plan.inputs| && plan.inputs[i].kind.CovenantKind? {
      var id :| id in order && i in Members(plan, id);
      MembersExact(plan, id);
    }
  }

  method CheckFamilies(plan: Plan, w: World) returns (fault: Option<Code>, roles: map<nat, Role>)
    requires forall i :: 0 <= i < |plan.inputs| ==> InputShape(plan.inputs[i])
    requires CovenantsResolved(plan, w)
    ensures fault.Some? ==> fault.value in CodesOf(3)
    ensures fault.None? <==> FamiliesHold(plan, w)
    ensures fault.None? ==> forall i: nat :: i in roles <==> i < |plan.inputs| && plan.inputs[i].kind.CovenantKind?
    ensures fault.None? ==>
              forall i: nat :: i < |plan.inputs| && plan.inputs[i].kind.CovenantKind? ==> roles[i] == RoleOf(plan, w, i)
  {
    hide FamilyHolds, Members, LeadOf, FamilyRoles, Lower, FactsOf, Spends;
    roles := map[];
    var order, families := GroupFamilies(plan);
    for k := 0 to |order|
      invariant RolesSoFar(plan, w, order[..k], roles)
    {
      var id := order[k];
      assert id in order;
      MembersResolved(plan, w, id);
      ghost var before := roles;
      fault, roles := CheckFamily(plan, w, id, families[id], roles);
      if fault.Some? {
        FamilyRefused(plan, w, id);
        return;
      }
      RolesAdvance(plan, w, order, k, before, roles);
    }
    assert order[..|order|] == order;
    FamiliesComplete(plan, w, order, roles);
    return None, roles;
  }

  // ----- bindings, genesis and successors

  method CheckBindings(plan: Plan) returns (fault: Option<Code>)
    ensures fault.Some? ==> fault.value in CodesOf(4)
    ensures fault.None? <==> forall o :: 0 <= o < |plan.outputs| ==> BindingHasOrigin(plan, o)
  {
    hide Members, Lower;
    for o := 0 to |plan.outputs|
      invariant forall p :: 0 <= p < o ==> BindingHasOrigin(plan, p)
    {
      var c := plan.outputs[o].covenant;
      if c.Some? && c.value.authorizingInput !in Members(plan, Lower(c.value.covenantId)) {
        assert !BindingHasOrigin(plan, o);
        return Some(BindingOrphan);
      }
    }
    return None;
  }

  method CheckGroup(plan: Plan, w: World, g: Genesis) returns (fault: Option<Code>)
    requires GroupShape(plan, g)
    ensures fault.Some? ==> fault.value in CodesOf(5)
    ensures fault.None? <==> GenesisHolds(plan, w, g)
  {
    hide GenesisId, Lower;
    if g.covenantId.Some? && GenesisId(plan, w, g) != Lower(g.covenantId.value) { return Some(GenesisIdMismatch); }
    if g.contract.None? { return Some(GenesisScriptMismatch); }
    var f := w.facts(g.contract.value.recordHash, g.contract.value.contract);
    if f.None? || f.value.recordHash != g.contract.value.recordHash
      || f.value.artifactSha != g.contract.value.artifactSha {
      return Some(GenesisScriptMismatch);
    }
    for k := 0 to |g.outputs|
      invariant forall j :: 0 <= j < k ==>
                  w.scriptOf(plan.outputs[g.outputs[j]].address).Some?
                  && (if g.states.Some? then w.lockAt(f.value, g.states.value[j]) else Some(f.value.lock))
                     == w.scriptOf(plan.outputs[g.outputs[j]].address)
    {
      var lock := if g.states.Some? then w.lockAt(f.value, g.states.value[k]) else Some(f.value.lock);
      if lock.None? { return Some(GenesisScriptMismatch); }
      var script := w.scriptOf(plan.outputs[g.outputs[k]].address);
      if script.None? { return Some(PlanInvalid); }
      if script != lock { return Some(GenesisScriptMismatch); }
    }
    return None;
  }

  method CheckGenesis(plan: Plan, w: World) returns (fault: Option<Code>)
    requires forall g :: 0 <= g < |plan.groups| ==> GroupShape(plan, plan.groups[g])
    ensures fault.Some? ==> fault.value in CodesOf(5)
    ensures fault.None? <==> forall g :: 0 <= g < |plan.groups| ==> GenesisHolds(plan, w, plan.groups[g])
  {
    hide GroupShape, GenesisHolds;
    for g := 0 to |plan.groups|
      invariant forall h :: 0 <= h < g ==> GenesisHolds(plan, w, plan.groups[h])
    {
      fault := CheckGroup(plan, w, plan.groups[g]);
      if fault.Some? { return; }
    }
    return None;
  }

  method CheckSuccessor(plan: Plan, w: World, id: string) returns (fault: Option<Code>)
    requires Shape(plan) && FamilyHolds(plan, w, id)
    ensures fault.Some? ==> fault.value in CodesOf(6)
    ensures fault.None? <==> SuccessorHolds(plan, w, id)
  {
    hide Shape, MovesWith, RolesHold, LineageHolds;
    NextStatesFit(plan, w, id);
    var leader := Members(plan, id)[0];
    var f := LeadOf(plan, w, leader).value.facts;
    var conts := CollectContinuations(plan, id);
    var declared := NextOf(plan.nextState, id).value;
    match declared.next {
      case Encoded(states) =>
        for k := 0 to |states|
          invariant forall j :: 0 <= j < k ==>
                      w.lockAt(f, states[j]).Some?
                        && w.lockAt(f, states[j]) == w.scriptOf(plan.outputs[conts[j]].address)
        {
          var lock := w.lockAt(f, states[k]);
          if lock.None? { return Some(SuccessorScriptMismatch); }
          var script := w.scriptOf(plan.outputs[conts[k]].address);
          if script.None? { return Some(PlanInvalid); }
          if script != lock { return Some(SuccessorScriptMismatch); }
        }
        return None;
      case Recompiled(sha) =>
        var s := w.successor(leader);
        if s.None? { return Some(SuccessorScriptMismatch); }
        if s.value.template != f.template { return Some(SuccessorTemplateChanged); }
        if s.value.bytecode == f.bytecode { return Some(SuccessorStateUnchanged); }
        if s.value.artifactSha != sha { return Some(SuccessorScriptMismatch); }
        if w.scriptOf(plan.outputs[conts[0]].address) != Some(s.value.lock) { return Some(SuccessorScriptMismatch); }
        return None;
    }
  }

  method CheckSuccessors(plan: Plan, w: World) returns (fault: Option<Code>)
    requires Shape(plan) && FamiliesHold(plan, w)
    ensures fault.Some? ==> fault.value in CodesOf(6)
    ensures fault.None? <==> forall i :: 0 <= i < |plan.inputs| && plan.inputs[i].kind.CovenantKind? ==>
                               SuccessorHolds(plan, w, Lower(plan.inputs[i].covenantId.value))
  {
    hide SuccessorHolds, FamilyHolds, Lower;
    for i := 0 to |plan.inputs|
      invariant forall j :: 0 <= j < i && plan.inputs[j].kind.CovenantKind? ==>
                  SuccessorHolds(plan, w, Lower(plan.inputs[j].covenantId.value))
    {
      assert InputShape(plan.inputs[i]);
      if plan.inputs[i].kind.CovenantKind? {
        fault := CheckSuccessor(plan, w, Lower(plan.inputs[i].covenantId.value));
        if fault.Some? { return; }
      }
    }
    return None;
  }

  // ----- authorization, outputs, fee

  method CheckStateArguments(params: seq<ParamKind>, args: seq<PlanArg>, want: Option<seq<State>>) returns (ok: bool)
    ensures ok <==> forall k :: 0 <= k < |params| ==> StateArgument(params[k], args, k, want)
  {
    for k := 0 to |params|
      invariant forall j :: 0 <= j < k ==> StateArgument(params[j], args, j, want)
    {
      if !StateArgument(params[k], args, k, want) { return false; }
    }
    return true;
  }

  method CheckAuthorized(plan: Plan, w: World, i: nat) returns (fault: Option<Code>)
    requires i < |plan.inputs| && InputShape(plan.inputs[i])
    requires !plan.inputs[i].kind.P2pk? ==> plan.inputs[i].contract.Some? && FactsOf(plan, w, i).Some?
    ensures fault.Some? ==> fault.value in CodesOf(7)
    ensures fault.None? <==> Authorized(plan, w, i)
  {
    hide StatesFor, StateArgument, Lower, PlannedUnlock.ScanFrom;
    var x := plan.inputs[i];
    if x.kind.P2pk? { return None; }
    var f, c := FactsOf(plan, w, i).value, x.contract.value;
    if x.kind.CovenantKind? {
      var ok := CheckStateArguments(ParamsOf(f, c.entry), c.args, StatesFor(plan, i));
      if !ok { return Some(UnlockMismatch); }
    } else if c.entry !in f.entries {
      return Some(UnknownEntry);
    }
    var zero := w.unlock(f, c.entry, c.args, false);
    if zero.None? { return Some(if x.kind.CovenantKind? then UnlockMismatch else ArgumentInvalid); }
    if !w.slotsResolved(f, c.entry, c.args) { return Some(SlotUnresolved); }
    if w.signatureScripts.Some? && i < |w.signatureScripts.value| {
      var ones := w.unlock(f, c.entry, c.args, true);
      if ones.None? { return Some(if x.kind.CovenantKind? then UnlockMismatch else ArgumentInvalid); }
      var planned := PlannedUnlock.IsPlannedUnlock(Lower(w.signatureScripts.value[i]), Lower(zero.value),
                                                   Lower(ones.value));
      if !planned { return Some(SignedPlanMismatch); }
    }
    return None;
  }

  method CheckAuthorization(plan: Plan, w: World) returns (fault: Option<Code>)
    requires forall i :: 0 <= i < |plan.inputs| ==>
               InputShape(plan.inputs[i])
                 && (!plan.inputs[i].kind.P2pk? ==> plan.inputs[i].contract.Some? && FactsOf(plan, w, i).Some?)
    ensures fault.Some? ==> fault.value in CodesOf(7)
    ensures fault.None? <==> forall i :: 0 <= i < |plan.inputs| ==> Authorized(plan, w, i)
  {
    hide Authorized;
    for i := 0 to |plan.inputs|
      invariant forall j :: 0 <= j < i ==> Authorized(plan, w, j)
    {
      fault := CheckAuthorized(plan, w, i);
      if fault.Some? { return; }
    }
    return None;
  }

  method CheckScripts(plan: Plan, w: World) returns (fault: Option<Code>)
    ensures fault.Some? ==> fault.value in CodesOf(8)
    ensures fault.None? <==> ScriptsHold(plan, w)
  {
    hide SignedP2pk, Lower;
    if w.signatureScripts.None? { return None; }
    var scripts := w.signatureScripts.value;
    if |scripts| != |plan.inputs| { return Some(SignedPlanMismatch); }
    for i := 0 to |plan.inputs|
      invariant forall j :: 0 <= j < i && plan.inputs[j].kind.P2pk? ==> SignedP2pk(Lower(scripts[j]))
    {
      if plan.inputs[i].kind.P2pk? && !SignedP2pk(Lower(scripts[i])) { return Some(SignedPlanMismatch); }
    }
    return None;
  }

  method CheckOutputs(plan: Plan, w: World) returns (fault: Option<Code>)
    ensures fault.Some? ==> fault.value in CodesOf(9)
    ensures fault.None? <==> forall o :: 0 <= o < |plan.outputs| ==> OutputDeclared(plan, w, o)
  {
    hide InGroup;
    for o := 0 to |plan.outputs|
      invariant forall p :: 0 <= p < o ==> OutputDeclared(plan, w, p)
    {
      var x := plan.outputs[o];
      if x.covenant.None? && !InGroup(plan, o) && !x.role.Payment?
        && !(x.role.Change? && plan.funder == Some(x.address)) {
        assert !OutputDeclared(plan, w, o);
        return Some(OutputUndeclared);
      }
      if w.scriptOf(x.address).None? {
        assert !OutputDeclared(plan, w, o);
        return Some(PlanInvalid);
      }
    }
    return None;
  }

  method CheckFee(plan: Plan, w: World) returns (fault: Option<Code>)
    ensures fault.Some? ==> fault.value in CodesOf(10)
    ensures fault.None? <==> FeeHolds(plan, w)
  {
    hide Fee;
    var floor := w.minimumFee(plan);
    if floor.None? { return Some(MassAboveLimit); }
    if Fee(plan) < floor.value { return Some(FeeBelowFloor); }
    if plan.storageMass != w.storageMass(plan) { return Some(StorageMassDiffers); }
    if !w.networkAllowed(plan.networkId) { return Some(NetworkRefused); }
    return None;
  }

  lemma KindsResolve(plan: Plan, node: Utxos, w: World)
    requires forall i :: 0 <= i < |plan.inputs| ==> InputShape(plan.inputs[i])
    requires forall i :: 0 <= i < |plan.inputs| ==> RealInput(plan, node, i) && KindAgrees(plan, node, w, i)
    ensures CovenantsResolved(plan, w)
    ensures forall i :: 0 <= i < |plan.inputs| && !plan.inputs[i].kind.P2pk? ==>
              plan.inputs[i].contract.Some? && FactsOf(plan, w, i).Some?
  {
    hide Lower, P2pkScript, FactsOf;
    forall i | 0 <= i < |plan.inputs| && !plan.inputs[i].kind.P2pk?
      ensures plan.inputs[i].contract.Some? && FactsOf(plan, w, i).Some? {
      assert RealInput(plan, node, i) && InputShape(plan.inputs[i]);
    }
  }

  /**
   * The validator. It accepts a plan exactly when the plan is a transition: every check it makes is one the declarative
   * description asks for, and it misses none. A refusal's code is one of the first step that fails. The roles it
   * assigns are those the families give their inputs.
   */
  method ValidateV1Transition(plan: Plan, node: Utxos, w: World) returns (r: Result<Validated, Code>)
    ensures r.Ok? <==> Transition(plan, node, w)
    ensures r.Err? ==> exists k: nat :: k < STEPS && RefusedAt(k, r.error, plan, node, w)
    ensures r.Ok? ==> r.value.fee == Fee(plan)
    ensures r.Ok? ==> forall i: nat :: i in r.value.roles <==> i < |plan.inputs| && plan.inputs[i].kind.CovenantKind?
    ensures r.Ok? ==> forall i: nat :: i < |plan.inputs| && plan.inputs[i].kind.CovenantKind? ==>
              r.value.roles[i] == RoleOf(plan, w, i)
  {
    hide RealInput, KindAgrees, FamilyHolds, BindingHasOrigin, GroupShape, GenesisHolds, SuccessorHolds, Authorized,
         ScriptsHold, OutputDeclared, FeeHolds, NextShape, Fee, Lower, InputShape, RoleOf, FactsOf;
    if !Shape(plan) { assert RefusedAt(0, PlanInvalid, plan, node, w); return Err(PlanInvalid); }
    var fault := CheckRealInputs(plan, node);
    if fault.Some? { assert RefusedAt(1, fault.value, plan, node, w); return Err(fault.value); }
    fault := CheckKinds(plan, node, w);
    if fault.Some? { assert RefusedAt(2, fault.value, plan, node, w); return Err(fault.value); }
    KindsResolve(plan, node, w);
    var roles;
    fault, roles := CheckFamilies(plan, w);
    if fault.Some? { assert RefusedAt(3, fault.value, plan, node, w); return Err(fault.value); }
    fault := CheckBindings(plan);
    if fault.Some? { assert RefusedAt(4, fault.value, plan, node, w); return Err(fault.value); }
    fault := CheckGenesis(plan, w);
    if fault.Some? { assert RefusedAt(5, fault.value, plan, node, w); return Err(fault.value); }
    fault := CheckSuccessors(plan, w);
    if fault.Some? { assert RefusedAt(6, fault.value, plan, node, w); return Err(fault.value); }
    fault := CheckAuthorization(plan, w);
    if fault.Some? { assert RefusedAt(7, fault.value, plan, node, w); return Err(fault.value); }
    fault := CheckScripts(plan, w);
    if fault.Some? { assert RefusedAt(8, fault.value, plan, node, w); return Err(fault.value); }
    fault := CheckOutputs(plan, w);
    if fault.Some? { assert RefusedAt(9, fault.value, plan, node, w); return Err(fault.value); }
    fault := CheckFee(plan, w);
    if fault.Some? { assert RefusedAt(10, fault.value, plan, node, w); return Err(fault.value); }
    return Ok(Validated(Fee(plan), roles));
  }
}
