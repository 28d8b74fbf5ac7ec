/**
 * What a covenant id commits to: the outpoint its genesis spends, and, in order, the outputs it creates with the
 * amounts and scripts the ledger then holds; and that those outputs are the locks of the contract the genesis names.
 */
module Births {
  import opened Common
  import opened Covenant
  import opened Ledger

  /** What the ledger holds at an output of a transaction is what the list says of it. */
  predicate Recorded(next: Ledger, txId: string, x: AuthOutput)
  {
    var p := Outpoint(txId, x.index);
    p in next.utxos && next.utxos[p].amount == x.amount && next.utxos[p].script == x.script
  }

  /** The list gives a group's outputs, in the group's order, each as the ledger holds it. */
  predicate Lists(next: Ledger, txId: string, outputs: seq<nat>, outs: seq<AuthOutput>)
  {
    && |outs| == |outputs|
    && forall k :: 0 <= k < |outs| ==> outs[k].index == outputs[k] && Recorded(next, txId, outs[k])
  }

  /** The outputs hashed into an id are the group's, by position. */
  lemma {:induction false} AuthOutputsAt(plan: Plan, w: World, outputs: seq<nat>, k: nat)
    requires k < |outputs| && forall j :: 0 <= j < |outputs| ==> outputs[j] < |plan.outputs|
    ensures var x := AuthOutputs(plan, w, outputs)[k];
            && x.index == outputs[k] && x.amount == plan.outputs[outputs[k]].amount
            && (w.scriptOf(plan.outputs[outputs[k]].address) == Some(x.script)
                || w.scriptOf(plan.outputs[outputs[k]].address).None?)
  {
    if k > 0 {
      AuthOutputsAt(plan, w, outputs[1..], k - 1);
    }
  }

  /** After an accepted step the list hashed into a group's id is exactly the one the ledger's outputs give. */
  lemma ListedOnly(l: Ledger, tx: Tx, next: Ledger, g: nat, outs: seq<AuthOutput>)
    requires Step(l, tx, next) && g < |tx.plan.groups|
    ensures GroupShape(tx.plan, tx.plan.groups[g])
    ensures outs == AuthOutputs(tx.plan, tx.world, tx.plan.groups[g].outputs) <==>
              Lists(next, tx.txId, tx.plan.groups[g].outputs, outs)
  {
    hide FamiliesHold, Lower, Authorized, SuccessorHolds, GenesisHolds, FeeHolds, ScriptsHold, OutputDeclared,
         BindingHasOrigin, OutputCovenant, KindAgrees, RealInput, AuthOutputs, InputShape, NextShape, Fee, Founds,
         GenesisId, InGroup;
    var outputs := tx.plan.groups[g].outputs;
    var hashed := AuthOutputs(tx.plan, tx.world, outputs);
    forall k | 0 <= k < |outputs|
      ensures hashed[k].index == outputs[k] && Recorded(next, tx.txId, hashed[k])
    {
      AuthOutputsAt(tx.plan, tx.world, outputs, k);
      assert Outpoint(tx.txId, outputs[k]) in next.utxos;
    }
    if Lists(next, tx.txId, outputs, outs) {
      assert forall k :: 0 <= k < |outs| ==> outs[k] == hashed[k];
    }
  }

  /**
   * The id of a genesis commits to its birth: any outpoint and outputs with that id are the outpoint it spent, unspent
   * until then, and the outputs it created, in its order, with the amounts and scripts they have in the ledger.
   */
  lemma GenesisCommits(l: Ledger, tx: Tx, next: Ledger, g: nat, p: Outpoint, outs: seq<AuthOutput>)
    requires Step(l, tx, next) && IdsInjective(tx.world) && g < |tx.plan.groups|
    ensures GroupShape(tx.plan, tx.plan.groups[g])
    ensures var group := tx.plan.groups[g];
            && tx.plan.inputs[group.authorizingInput].outpoint in l.utxos
            && (tx.world.covenantIdOf(p, outs) == GenesisId(tx.plan, tx.world, group) <==>
                  p == tx.plan.inputs[group.authorizingInput].outpoint && Lists(next, tx.txId, group.outputs, outs))
  {
    hide FamiliesHold, Lower, Authorized, SuccessorHolds, GenesisHolds, FeeHolds, ScriptsHold, OutputDeclared,
         BindingHasOrigin, OutputCovenant, KindAgrees, AuthOutputs, InputShape, NextShape, Fee, Founds, InGroup, Lists;
    var group := tx.plan.groups[g];
    ListedOnly(l, tx, next, g, outs);
    assert RealInput(tx.plan, l.utxos, group.authorizingInput);
  }

  /** An id the plan declares for a genesis is, when the plan is accepted, the one its birth gives, and no other. */
  lemma DeclaredIdCommits(l: Ledger, tx: Tx, next: Ledger, g: nat, p: Outpoint, outs: seq<AuthOutput>)
    requires Step(l, tx, next) && IdsInjective(tx.world) && g < |tx.plan.groups|
    requires tx.plan.groups[g].covenantId.Some?
    ensures GroupShape(tx.plan, tx.plan.groups[g])
    ensures var group := tx.plan.groups[g];
            tx.world.covenantIdOf(p, outs) == Lower(group.covenantId.value) <==>
              p == tx.plan.inputs[group.authorizingInput].outpoint && Lists(next, tx.txId, group.outputs, outs)
  {
    hide FamiliesHold, Lower, Authorized, SuccessorHolds, FeeHolds, ScriptsHold, OutputDeclared, BindingHasOrigin,
         OutputCovenant, KindAgrees, RealInput, AuthOutputs, InputShape, NextShape, Fee, Founds, InGroup, Lists,
         GenesisId, IdsInjective;
    GenesisCommits(l, tx, next, g, p, outs);
    assert GenesisHolds(tx.plan, tx.world, tx.plan.groups[g]);
  }

  /** Every covenant that enters the ledger's record of births does so with such an id, recorded under its outpoint. */
  lemma NewbornCommits(l: Ledger, tx: Tx, next: Ledger, c: string) returns (g: nat, outs: seq<AuthOutput>)
    requires Step(l, tx, next) && IdsInjective(tx.world) && c in next.born && c !in l.born
    ensures g < |tx.plan.groups| && GroupShape(tx.plan, tx.plan.groups[g])
    ensures next.born[c] == tx.plan.inputs[tx.plan.groups[g].authorizingInput].outpoint
    ensures tx.world.covenantIdOf(next.born[c], outs) == c && Lists(next, tx.txId, tx.plan.groups[g].outputs, outs)
  {
    hide FamiliesHold, Lower, Authorized, SuccessorHolds, GenesisHolds, FeeHolds, ScriptsHold, OutputDeclared,
         BindingHasOrigin, OutputCovenant, KindAgrees, RealInput, AuthOutputs, InputShape, NextShape, Fee, InGroup,
         Lists, IdsInjective;
    g :| 0 <= g < |tx.plan.groups| && GenesisId(tx.plan, tx.world, tx.plan.groups[g]) == c;
    outs := AuthOutputs(tx.plan, tx.world, tx.plan.groups[g].outputs);
    ListedOnly(l, tx, next, g, outs);
  }

  /**
   * The k-th output of an accepted genesis is, in the ledger, the lock of the contract the genesis names: at the k-th
   * state it gives, or as compiled when it gives none.
   */
  lemma GenesisLocked(l: Ledger, tx: Tx, next: Ledger, g: nat, k: nat)
    requires Step(l, tx, next) && g < |tx.plan.groups| && k < |tx.plan.groups[g].outputs|
    ensures tx.plan.groups[g].contract.Some?
    ensures var group, ref := tx.plan.groups[g], tx.plan.groups[g].contract.value;
            var f, p := tx.world.facts(ref.recordHash, ref.contract), Outpoint(tx.txId, group.outputs[k]);
            && f.Some? && f.value.recordHash == ref.recordHash && f.value.artifactSha == ref.artifactSha
            && p in next.utxos
            && (group.states.None? ==> next.utxos[p].script == f.value.lock)
            && (group.states.Some? ==>
                  && |group.states.value| == |group.outputs|
                  && tx.world.lockAt(f.value, group.states.value[k]) == Some(next.utxos[p].script))
  {
    hide FamiliesHold, Lower, Authorized, SuccessorHolds, FeeHolds, ScriptsHold, OutputDeclared, BindingHasOrigin,
         OutputCovenant, KindAgrees, RealInput, AuthOutputs, InputShape, NextShape, Fee, Founds, InGroup, GenesisId;
    var group := tx.plan.groups[g];
    assert GroupShape(tx.plan, group) && GenesisHolds(tx.plan, tx.world, group);
    assert Outpoint(tx.txId, group.outputs[k]) in next.utxos;
  }

  /** Every output of a genesis is born into the covenant of its own group, and into no other. */
  lemma BornUnder(l: Ledger, tx: Tx, next: Ledger, g: nat, k: nat)
    requires Step(l, tx, next) && g < |tx.plan.groups| && k < |tx.plan.groups[g].outputs|
    ensures GroupShape(tx.plan, tx.plan.groups[g])
    ensures var p := Outpoint(tx.txId, tx.plan.groups[g].outputs[k]);
            p in next.utxos && next.utxos[p].covenantId == Some(GenesisId(tx.plan, tx.world, tx.plan.groups[g]))
  {
    hide FamiliesHold, Lower, Authorized, SuccessorHolds, GenesisHolds, FeeHolds, ScriptsHold, OutputDeclared,
         BindingHasOrigin, KindAgrees, RealInput, AuthOutputs, InputShape, NextShape, Fee, Founds, GenesisId;
    var o := tx.plan.groups[g].outputs[k];
    assert GroupShape(tx.plan, tx.plan.groups[g]) && o in tx.plan.groups[g].outputs;
    assert Outpoint(tx.txId, o) in next.utxos;
    assert OutputCovenant(tx.plan, tx.world, o, next.utxos[Outpoint(tx.txId, o)].covenantId);
    forall h | 0 <= h < |tx.plan.groups| && o in tx.plan.groups[h].outputs
      ensures h == g { OneGroup(tx.plan, g, h, o); }
  }

  lemma OneGroup(plan: Plan, g: nat, h: nat, o: nat)
    requires Shape(plan) && g < |plan.groups| && h < |plan.groups|
    requires o in plan.groups[g].outputs && o in plan.groups[h].outputs
    ensures g == h
  {
    hide InputShape, GroupShape, NextShape, Fee;
  }
}
