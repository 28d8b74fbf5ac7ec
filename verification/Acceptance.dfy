/**
 * What one accepted transaction says of the ledger it is applied to: who the coins it spends belong to and how they are
 * unlocked, where its outputs go, which successor a covenant has, and that a covenant that has ended stays ended.
 */
module Acceptance {
  import opened Common
  import opened Covenant
  import opened Ledger
  import PlannedUnlock

  // ----- what is spent

  /** The script of a key: version 0, a push of its 32 bytes, and a check of one signature. */
  function KeyScript(key: string): (r: string)
  {
    "0000" + "20" + key + "ac"
  }

  lemma KeyScriptExact(s: string, key: string)
    requires P2pkScript(s) && "20" + key == s[4..70]
    ensures s == KeyScript(key)
  {
    assert s == s[..6] + s[6..70] + s[70..];
    assert s[..6] == "0000" + "20" by { assert s[..6] == "000020"; }
    assert key == ("20" + key)[2..] == s[4..70][2..] == s[6..70];
  }

  /**
   * A coin spent with a key is in no covenant, is listed with the plan's amount, belongs to the plan's funder, and,
   * where keys are known, its listed script is that of the key its signer holds.
   */
  lemma KeySpent(l: Ledger, tx: Tx, next: Ledger, i: nat)
    requires Step(l, tx, next) && i < |tx.plan.inputs| && tx.plan.inputs[i].kind.P2pk?
    ensures var x := tx.plan.inputs[i];
            && x.outpoint in l.utxos && l.utxos[x.outpoint].covenantId.None? && l.utxos[x.outpoint].amount == x.amount
            && tx.plan.funder == Some(x.address) && P2pkScript(Lower(l.utxos[x.outpoint].script))
            && (tx.world.publicKeyOf.Some? ==>
                  && tx.world.publicKeyOf.value(x.signer).Some?
                  && Lower(l.utxos[x.outpoint].script) == KeyScript(Lower(tx.world.publicKeyOf.value(x.signer).value)))
  {
    hide Shape, FamiliesHold, Lower, Authorized, SuccessorHolds, GenesisHolds, FeeHolds, ScriptsHold, OutputDeclared,
         BindingHasOrigin, OutputCovenant, Founds, FactsOf, P2pkScript;
    assert RealInput(tx.plan, l.utxos, i) && KindAgrees(tx.plan, l.utxos, tx.world, i);
    if tx.world.publicKeyOf.Some? {
      KeyScriptExact(Lower(tx.plan.inputs[i].script),
                     Lower(tx.world.publicKeyOf.value(tx.plan.inputs[i].signer).value));
    }
  }

  /**
   * A coin spent through a contract is listed under the lock of the very contract the plan refers to, as reproduced
   * from its record; and it is spent as a covenant's exactly when it is listed as one, under the covenant it is listed
   * in.
   */
  lemma ContractSpent(l: Ledger, tx: Tx, next: Ledger, i: nat)
    requires Step(l, tx, next) && i < |tx.plan.inputs| && !tx.plan.inputs[i].kind.P2pk?
    ensures var x := tx.plan.inputs[i];
            && x.outpoint in l.utxos && l.utxos[x.outpoint].amount == x.amount
            && x.contract.Some?
            && var f := tx.world.facts(x.contract.value.recordHash, x.contract.value.contract);
            && f.Some? && f.value.recordHash == x.contract.value.recordHash
            && f.value.artifactSha == x.contract.value.artifactSha && f.value.contractName == x.contract.value.contract
            && Lower(l.utxos[x.outpoint].script) == f.value.lock
            && (x.kind.CovenantKind? <==> l.utxos[x.outpoint].covenantId.Some?)
            && (x.kind.CovenantKind? ==>
                  x.covenantId.Some? && Lower(x.covenantId.value) == Lower(l.utxos[x.outpoint].covenantId.value))
  {
    hide Shape, FamiliesHold, Lower, Authorized, SuccessorHolds, GenesisHolds, FeeHolds, ScriptsHold, OutputDeclared,
         BindingHasOrigin, OutputCovenant, Founds, P2pkScript;
    assert RealInput(tx.plan, l.utxos, i) && KindAgrees(tx.plan, l.utxos, tx.world, i);
  }

  /** The unlocks of a signed transaction: one for each input; at a key, one 65-byte signature with SIGHASH_ALL. */
  lemma SignedUnlocks(l: Ledger, tx: Tx, next: Ledger, i: nat)
    requires Step(l, tx, next) && i < |tx.plan.inputs| && tx.world.signatureScripts.Some?
    ensures i < |tx.world.signatureScripts.value|
    ensures var s, x := Lower(tx.world.signatureScripts.value[i]), tx.plan.inputs[i];
            && (x.kind.P2pk? ==> |s| == 2 + 2 * 65 && s[..2] == "41" && s[|s| - 2..] == "01")
            && (!x.kind.P2pk? ==>
                  && x.contract.Some? && FactsOf(tx.plan, tx.world, i).Some?
                  && var f, c := FactsOf(tx.plan, tx.world, i).value, x.contract.value;
                  var zero, ones := tx.world.unlock(f, c.entry, c.args, false),
                    tx.world.unlock(f, c.entry, c.args, true);
                  && zero.Some? && ones.Some? && SignedAsPlanned(s, Lower(zero.value), Lower(ones.value)))
  {
    hide FamiliesHold, Lower, SuccessorHolds, GenesisHolds, FeeHolds, OutputDeclared, BindingHasOrigin, OutputCovenant,
         Founds, P2pkScript, KindAgrees, RealInput, SignedAsPlanned, NextShape, GroupShape, Fee, StateArgument,
         FactsOf;
    assert InputShape(tx.plan.inputs[i]) && Authorized(tx.plan, tx.world, i);
  }

  // ----- where the outputs go

  /**
   * Every output that enters is in the covenant it is bound to or born in, or is a payment the plan declares, or is
   * change, and change goes to the plan's funder and nowhere else.
   */
  lemma OutputsAccounted(l: Ledger, tx: Tx, next: Ledger, o: nat)
    requires Step(l, tx, next) && o < |tx.plan.outputs|
    ensures var p, x := Outpoint(tx.txId, o), tx.plan.outputs[o];
            && p in next.utxos && next.utxos[p].amount == x.amount
            && tx.world.scriptOf(x.address) == Some(next.utxos[p].script)
            && (next.utxos[p].covenantId.None? ==>
                  x.role.Payment? || (x.role.Change? && tx.plan.funder == Some(x.address)))
  {
    hide Shape, FamiliesHold, Lower, Authorized, SuccessorHolds, GenesisHolds, FeeHolds, ScriptsHold, BindingHasOrigin,
         Founds, P2pkScript, KindAgrees, RealInput, GenesisId;
    assert OutputDeclared(tx.plan, tx.world, o);
    assert Outpoint(tx.txId, o) in next.utxos;
  }

  /**
   * What a transaction costs and where it may go: its fee covers the network's floor and stays within the plan's limit,
   * its declared storage mass is the one computed for it, and its network is one the engine signs for.
   */
  lemma WithinLimits(l: Ledger, tx: Tx, next: Ledger)
    requires Step(l, tx, next)
    ensures tx.world.minimumFee(tx.plan).Some?
    ensures tx.world.minimumFee(tx.plan).value <= Fee(tx.plan) <= tx.plan.maxFee && 0 <= Fee(tx.plan)
    ensures tx.plan.storageMass == tx.world.storageMass(tx.plan) && tx.world.networkAllowed(tx.plan.networkId)
  {
    hide FamiliesHold, Lower, Authorized, SuccessorHolds, GenesisHolds, ScriptsHold, OutputDeclared, BindingHasOrigin,
         OutputCovenant, Founds, P2pkScript, KindAgrees, RealInput, Fee, InputShape, GroupShape, NextShape;
  }

  // ----- a covenant's next state

  /**
   * A covenant that moves says so: its lowest input declares what follows, on exactly its continuations. Nothing
   * follows only when that is declared, and, of a one-to-one policy, only when the policy allows it. A recompiled
   * successor is of a one-to-one policy, has the template but another bytecode, is the artifact declared, and locks the
   * continuation.
   */
  lemma NextDeclares(l: Ledger, tx: Tx, next: Ledger, c: string)
    requires Step(l, tx, next) && Members(tx.plan, c) != []
    ensures FamilyHolds(tx.plan, tx.world, c)
    ensures var leader, conts := Members(tx.plan, c)[0], Continuations(tx.plan, c);
            var lead, n := LeadOf(tx.plan, tx.world, leader).value, NextOf(tx.plan.nextState, c);
            && n.Some? && n.value.input == leader && n.value.outputs == conts
            && (conts == [] ==> n.value.next == Encoded([]))
            && (conts == [] && lead.from == 1 && lead.to == 1 ==> lead.decl.terminationAllowed)
            && (n.value.next.Recompiled? ==>
                  && lead.from == 1 && lead.to == 1 && |conts| == 1 && tx.world.successor(leader).Some?
                  && var s, p := tx.world.successor(leader).value, Outpoint(tx.txId, conts[0]);
                  && s.template == lead.facts.template && s.bytecode != lead.facts.bytecode
                  && s.artifactSha == n.value.next.artifactSha
                  && p in next.utxos && next.utxos[p].script == s.lock)
  {
    hide OutputCovenant, Founds, Lower, Members, Continuations, LeadOf, MovesWith, RolesHold, LineageHolds,
         GenesisHolds, Authorized, ScriptsHold, OutputDeclared, FeeHolds, KindAgrees, RealInput, BindingHasOrigin,
         Shape;
    MembersExact(tx.plan, c);
    FamilySuccessor(l, tx, next, c, Members(tx.plan, c)[0]);
    var conts := Continuations(tx.plan, c);
    var n := NextOf(tx.plan.nextState, c).value;
    if conts != [] { assert Outpoint(tx.txId, conts[0]) in next.utxos; }
  }

  /**
   * Every next state a plan declares is of a covenant with an output that is unspent until now, which its input spends.
   */
  lemma NextNames(l: Ledger, tx: Tx, next: Ledger, k: nat)
    requires Step(l, tx, next) && k < |tx.plan.nextState|
    ensures var n := tx.plan.nextState[k];
            && n.input < |tx.plan.inputs| && Live(l, tx.plan.inputs[n.input].outpoint, Lower(n.covenantId))
            && (forall j :: 0 <= j < |n.outputs| ==> n.outputs[j] < |tx.plan.outputs|)
            && (n.next.Encoded? ==> |n.next.states| == |n.outputs|)
  {
    hide FamiliesHold, Lower, Authorized, SuccessorHolds, GenesisHolds, FeeHolds, ScriptsHold, OutputDeclared,
         GroupShape, BindingHasOrigin, OutputCovenant, Founds, P2pkScript, KindAgrees, RealInput, Fee, Live;
    var n := tx.plan.nextState[k];
    assert NextShape(tx.plan, n);
    assert Spends(tx.plan, n.input, Lower(n.covenantId));
    InputIsLive(l, tx, next, n.input, Lower(n.covenantId));
  }

  // ----- what has ended

  /** No unspent output is in the covenant. */
  ghost predicate Ended(l: Ledger, c: string)
  {
    forall p :: !Live(l, p, c)
  }

  lemma EndedStep(l: Ledger, tx: Tx, next: Ledger, c: string)
    requires Step(l, tx, next) && Sound(l, tx.world.covenantIdOf) && IdsInjective(tx.world)
    requires c in l.born && Ended(l, c)
    ensures c in next.born && Ended(next, c)
  {
    hide Transition, OutputCovenant, Founds, Lower, IdsInjective, Sound, GenesisId;
    forall p ensures !Live(next, p, c) {
      if Live(next, p, c) {
        if p.txId == tx.txId {
          NewLiveOrigin(l, tx, next, p, c);
          NotFoundedAgain(l, tx, next, c);
          var q := BoundOutputContinues(l, tx, next, p.index);
        } else {
          assert Live(l, p, c) by { OldStays(l, tx, next, p, c); }
        }
      }
    }
  }

  lemma OldStays(l: Ledger, tx: Tx, next: Ledger, p: Outpoint, c: string)
    requires Step(l, tx, next) && Live(next, p, c) && p.txId != tx.txId
    ensures Live(l, p, c)
  {
    hide Transition, OutputCovenant, Founds, Lower;
  }

  lemma NotFoundedAgain(l: Ledger, tx: Tx, next: Ledger, c: string)
    requires Step(l, tx, next) && Sound(l, tx.world.covenantIdOf) && IdsInjective(tx.world) && c in l.born
    ensures !Founds(tx.plan, tx.world, c)
  {
    hide Sound, IdsInjective, GenesisId, OutputCovenant, Live, FamiliesHold, GenesisHolds, SuccessorHolds, Authorized,
         ScriptsHold, OutputDeclared, FeeHolds, KindAgrees, RealInput, BindingHasOrigin;
    forall g | 0 <= g < |tx.plan.groups| ensures GenesisId(tx.plan, tx.world, tx.plan.groups[g]) != c {
      FoundedFresh(l, tx, next, g);
    }
  }

  /** In every run, a covenant that has no unspent output left never has one again. */
  lemma {:induction false} EndedForever(ls: seq<Ledger>, txs: seq<Tx>, base: World, c: string, j: nat, k: nat)
    requires Run(ls, txs) && OneChain(base, txs) && Sound(ls[0], base.covenantIdOf) && j <= k < |ls|
    requires c in ls[j].born && Ended(ls[j], c)
    ensures c in ls[k].born && Ended(ls[k], c)
    decreases k
  {
    hide Sound, Coherent, IdsInjective, Ended, Step;
    if j < k {
      EndedForever(ls, txs, base, c, j, k - 1);
      SoundRun(ls, txs, base, k - 1);
      assert SameChain(base, txs[k - 1].world);
      assert Step(ls[k - 1], txs[k - 1], ls[k]);
      EndedStep(ls[k - 1], txs[k - 1], ls[k], c);
    }
  }
}
