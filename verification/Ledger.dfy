/**
 * A ledger whose steps are plans the validator accepts against the outputs that are unspent now, and what every run of
 * it keeps.
 */
module Ledger {
  import opened Common
  import opened Covenant

  /** The unspent outputs, the transaction ids used so far, and the outpoint each covenant was born from. */
  datatype Ledger = Ledger(utxos: Utxos, used: set<string>, born: map<string, Outpoint>)

  datatype Tx = Tx(plan: Plan, world: World, txId: string)

  /** The output is unspent and belongs to covenant `c`. */
  predicate Live(l: Ledger, p: Outpoint, c: string)
  {
    p in l.utxos && l.utxos[p].covenantId.Some? && Lower(l.utxos[p].covenantId.value) == c
  }

  ghost predicate SpentBy(plan: Plan, p: Outpoint)
  {
    exists i :: 0 <= i < |plan.inputs| && plan.inputs[i].outpoint == p
  }

  /** The covenant the network gives an output: its binding's, or its genesis group's. */
  ghost predicate OutputCovenant(plan: Plan, w: World, o: nat, c: Option<string>)
    requires Shape(plan) && o < |plan.outputs|
  {
    match plan.outputs[o].covenant
    case Some(b) => c == Some(b.covenantId)
    case None =>
      if InGroup(plan, o) then
        exists g :: 0 <= g < |plan.groups| && o in plan.groups[g].outputs
          && c == Some(GenesisId(plan, w, plan.groups[g]))
      else c == None
  }

  /** The plan founds covenant `c`: it is the id of one of its genesis groups. */
  ghost predicate Founds(plan: Plan, w: World, c: string)
    requires Shape(plan)
  {
    exists g :: 0 <= g < |plan.groups| && GenesisId(plan, w, plan.groups[g]) == c
  }

  /**
   * One accepted transaction: its inputs leave, its outputs enter under its fresh id, its genesis groups are recorded.
   */
  ghost predicate Step(l: Ledger, tx: Tx, next: Ledger)
  {
    && Transition(tx.plan, l.utxos, tx.world)
    && tx.txId !in l.used
    && next.used == l.used + {tx.txId}
    && (forall p :: p in next.utxos ==>
          if p.txId == tx.txId then
            && p.index < |tx.plan.outputs|
            && OutputCovenant(tx.plan, tx.world, p.index, next.utxos[p].covenantId)
            && tx.world.scriptOf(tx.plan.outputs[p.index].address) == Some(next.utxos[p].script)
            && next.utxos[p].amount == tx.plan.outputs[p.index].amount
          else p in l.utxos && next.utxos[p] == l.utxos[p] && !SpentBy(tx.plan, p))
    && (forall p :: p in l.utxos && !SpentBy(tx.plan, p) ==> p in next.utxos)
    && (forall o :: 0 <= o < |tx.plan.outputs| ==> Outpoint(tx.txId, o) in next.utxos)
    && (forall c :: c in next.born <==> c in l.born || Founds(tx.plan, tx.world, c))
    && (forall c :: c in l.born ==> next.born[c] == l.born[c])
    && (forall g :: 0 <= g < |tx.plan.groups| && GenesisId(tx.plan, tx.world, tx.plan.groups[g]) !in l.born ==>
          next.born[GenesisId(tx.plan, tx.world, tx.plan.groups[g])]
            == tx.plan.inputs[tx.plan.groups[g].authorizingInput].outpoint)
  }

  /** Covenant ids are hashes of the spent outpoint and the group's outputs, in lower-case hexadecimal. */
  ghost predicate IdsInjective(w: World)
  {
    && (forall p: Outpoint, q: Outpoint, a: seq<AuthOutput>, b: seq<AuthOutput> ::
          w.covenantIdOf(p, a) == w.covenantIdOf(q, b) ==> p == q && a == b)
    && (forall p: Outpoint, a: seq<AuthOutput> :: Lower(w.covenantIdOf(p, a)) == w.covenantIdOf(p, a))
  }

  /**
   * Every live outpoint has a used id; a live covenant was born, from an outpoint that is used and no longer unspent.
   */
  ghost predicate Sound(l: Ledger, idOf: (Outpoint, seq<AuthOutput>) -> string)
  {
    && (forall p :: p in l.utxos ==> p.txId in l.used)
    && (forall p, c :: Live(l, p, c) ==> c in l.born)
    && (forall c :: c in l.born ==>
          l.born[c] !in l.utxos && l.born[c].txId in l.used && exists a :: idOf(l.born[c], a) == c)
  }

  // ----- what one step does

  lemma InputIsLive(l: Ledger, tx: Tx, next: Ledger, i: nat, c: string)
    requires Step(l, tx, next) && i < |tx.plan.inputs|
    ensures tx.plan.inputs[i].outpoint in l.utxos
    ensures Spends(tx.plan, i, c) <==> Live(l, tx.plan.inputs[i].outpoint, c)
  {
    hide Shape, FamiliesHold, Lower, Authorized, SuccessorHolds, GenesisHolds, FeeHolds, ScriptsHold, OutputDeclared,
         BindingHasOrigin, OutputCovenant, Founds, FactsOf, P2pkScript;
    assert RealInput(tx.plan, l.utxos, i);
    assert KindAgrees(tx.plan, l.utxos, tx.world, i);
  }

  /** An output bound to a covenant appears only in a step that spends an unspent output of that covenant. */
  lemma BoundOutputContinues(l: Ledger, tx: Tx, next: Ledger, o: nat) returns (p: Outpoint)
    requires Step(l, tx, next) && o < |tx.plan.outputs| && tx.plan.outputs[o].covenant.Some?
    ensures SpentBy(tx.plan, p) && Live(l, p, Lower(tx.plan.outputs[o].covenant.value.covenantId))
  {
    hide Shape, FamiliesHold, Lower, Authorized, SuccessorHolds, GenesisHolds, FeeHolds, ScriptsHold, OutputDeclared,
         KindAgrees, RealInput, Members, OutputCovenant, Founds;
    var c := Lower(tx.plan.outputs[o].covenant.value.covenantId);
    assert BindingHasOrigin(tx.plan, o);
    var i := tx.plan.outputs[o].covenant.value.authorizingInput;
    MembersExact(tx.plan, c);
    assert Spends(tx.plan, i, c);
    InputIsLive(l, tx, next, i, c);
    p := tx.plan.inputs[i].outpoint;
  }

  /** A covenant's unspent output is spent only inside its family, which is one declared transition of one template. */
  lemma SpentInsideFamily(l: Ledger, tx: Tx, next: Ledger, i: nat, c: string)
    requires Step(l, tx, next) && i < |tx.plan.inputs| && Live(l, tx.plan.inputs[i].outpoint, c)
    ensures i in Members(tx.plan, c) && FamilyHolds(tx.plan, tx.world, c)
    ensures FactsOf(tx.plan, tx.world, i).Some?
            && FactsOf(tx.plan, tx.world, i).value.template
                 == LeadOf(tx.plan, tx.world, Members(tx.plan, c)[0]).value.facts.template
            && FactsOf(tx.plan, tx.world, i).value.lock == Lower(l.utxos[tx.plan.inputs[i].outpoint].script)
  {
    hide Shape, Lower, Authorized, SuccessorHolds, GenesisHolds, FeeHolds, ScriptsHold, OutputDeclared, Members,
         BindingHasOrigin, OutputCovenant, Founds, P2pkScript, FactsOf, LeadOf, RolesHold, LineageHolds, NextDeclared;
    InputIsLive(l, tx, next, i, c);
    assert RealInput(tx.plan, l.utxos, i);
    assert KindAgrees(tx.plan, l.utxos, tx.world, i);
    MembersExact(tx.plan, c);
    assert FamilyHolds(tx.plan, tx.world, c);
    var ms := Members(tx.plan, c);
    var k :| 0 <= k < |ms| && ms[k] == i;
    assert MovesWith(tx.plan, tx.world, ms[k], LeadOf(tx.plan, tx.world, ms[0]).value);
  }

  // ----- what every step keeps

  /** A covenant a plan founds was never born before: its id commits to an outpoint that is unspent until now. */
  lemma FoundedFresh(l: Ledger, tx: Tx, next: Ledger, g: nat)
    requires Step(l, tx, next) && Sound(l, tx.world.covenantIdOf) && IdsInjective(tx.world) && g < |tx.plan.groups|
    ensures GenesisId(tx.plan, tx.world, tx.plan.groups[g]) !in l.born
  {
    hide FamiliesHold, Lower, Authorized, SuccessorHolds, GenesisHolds, FeeHolds, ScriptsHold, OutputDeclared,
         BindingHasOrigin, OutputCovenant, Founds, KindAgrees, AuthOutputs;
    var group := tx.plan.groups[g];
    var id := GenesisId(tx.plan, tx.world, group);
    var p := tx.plan.inputs[group.authorizingInput].outpoint;
    assert RealInput(tx.plan, l.utxos, group.authorizingInput);
    assert id == tx.world.covenantIdOf(p, AuthOutputs(tx.plan, tx.world, group.outputs));
    assert forall a, q :: tx.world.covenantIdOf(q, a) == id ==> q == p;
  }

  lemma NewLiveOrigin(l: Ledger, tx: Tx, next: Ledger, p: Outpoint, c: string)
    requires Step(l, tx, next) && IdsInjective(tx.world) && p.txId == tx.txId && Live(next, p, c)
    ensures p.index < |tx.plan.outputs|
    ensures Continues(tx.plan, p.index, c) || Founds(tx.plan, tx.world, c)
  {
    hide FamiliesHold, Lower, Authorized, SuccessorHolds, GenesisHolds, FeeHolds, ScriptsHold, OutputDeclared,
         BindingHasOrigin, KindAgrees, RealInput, AuthOutputs, InGroup;
    assert OutputCovenant(tx.plan, tx.world, p.index, next.utxos[p].covenantId);
    if tx.plan.outputs[p.index].covenant.None? {
      var g :| 0 <= g < |tx.plan.groups|
        && next.utxos[p].covenantId == Some(GenesisId(tx.plan, tx.world, tx.plan.groups[g]));
      assert Lower(GenesisId(tx.plan, tx.world, tx.plan.groups[g])) == GenesisId(tx.plan, tx.world, tx.plan.groups[g]);
    }
  }

  lemma SpentIsGone(l: Ledger, tx: Tx, next: Ledger, p: Outpoint, idOf: (Outpoint, seq<AuthOutput>) -> string)
    requires Step(l, tx, next) && Sound(l, idOf) && p.txId in l.used && (p !in l.utxos || SpentBy(tx.plan, p))
    ensures p !in next.utxos
  {
    hide Transition, OutputCovenant, Founds, Live;
  }

  lemma BornStays(l: Ledger, tx: Tx, next: Ledger, c: string)
    requires Step(l, tx, next) && Sound(l, tx.world.covenantIdOf) && IdsInjective(tx.world) && c in next.born
    ensures next.born[c] !in next.utxos && next.born[c].txId in next.used
            && exists a :: tx.world.covenantIdOf(next.born[c], a) == c
  {
    hide FamiliesHold, Lower, Authorized, SuccessorHolds, GenesisHolds, FeeHolds, ScriptsHold, OutputDeclared,
         BindingHasOrigin, OutputCovenant, KindAgrees, AuthOutputs, InputShape, NextShape, Fee;
    if c in l.born {
      SpentIsGone(l, tx, next, l.born[c], tx.world.covenantIdOf);
    } else {
      var g :| 0 <= g < |tx.plan.groups| && GenesisId(tx.plan, tx.world, tx.plan.groups[g]) == c;
      FoundingInput(l, tx, next, g);
    }
  }

  /** The outpoint a genesis group spends is gone after the step. */
  lemma FoundingInput(l: Ledger, tx: Tx, next: Ledger, g: nat)
    requires Step(l, tx, next) && Sound(l, tx.world.covenantIdOf) && g < |tx.plan.groups|
    ensures GroupShape(tx.plan, tx.plan.groups[g])
    ensures var p := tx.plan.inputs[tx.plan.groups[g].authorizingInput].outpoint; p !in next.utxos && p.txId in l.used
  {
    hide FamiliesHold, Lower, Authorized, SuccessorHolds, GenesisHolds, FeeHolds, ScriptsHold, OutputDeclared,
         BindingHasOrigin, OutputCovenant, KindAgrees, AuthOutputs, InputShape, NextShape, Fee, Live, Founds,
         GenesisId;
    var i := tx.plan.groups[g].authorizingInput;
    assert RealInput(tx.plan, l.utxos, i);
    assert SpentBy(tx.plan, tx.plan.inputs[i].outpoint);
    SpentIsGone(l, tx, next, tx.plan.inputs[i].outpoint, tx.world.covenantIdOf);
  }

  lemma SoundStep(l: Ledger, tx: Tx, next: Ledger)
    requires Step(l, tx, next) && Sound(l, tx.world.covenantIdOf) && IdsInjective(tx.world)
    ensures Sound(next, tx.world.covenantIdOf)
  {
    hide Transition, OutputCovenant, Founds, IdsInjective;
    forall p, c | Live(next, p, c) ensures c in next.born {
      if p.txId == tx.txId {
        NewLiveOrigin(l, tx, next, p, c);
        if Continues(tx.plan, p.index, c) {
          var q := BoundOutputContinues(l, tx, next, p.index);
        }
      } else {
        assert Live(l, p, c);
      }
    }
    forall c | c in next.born
      ensures next.born[c] !in next.utxos && next.born[c].txId in next.used
              && exists a :: tx.world.covenantIdOf(next.born[c], a) == c
    {
      BornStays(l, tx, next, c);
    }
  }

  // ----- one-to-one covenants

  /** Locks are hashes of bytecode: facts with one lock have one template, and a state's lock keeps its contract's. */
  ghost predicate Coherent(w: World)
  {
    && (forall r, n, s, m ::
          w.facts(r, n).Some? && w.facts(s, m).Some? && w.facts(r, n).value.lock == w.facts(s, m).value.lock ==>
            w.facts(r, n).value.template == w.facts(s, m).value.template)
    && (forall r, n, s, m, st: State ::
          w.facts(r, n).Some? && w.facts(s, m).Some?
          && w.lockAt(w.facts(r, n).value, st) == Some(w.facts(s, m).value.lock) ==>
            w.facts(r, n).value.template == w.facts(s, m).value.template)
    && (forall i, s, m ::
          w.successor(i).Some? && w.facts(s, m).Some? && w.successor(i).value.lock == w.facts(s, m).value.lock ==>
            w.successor(i).value.template == w.facts(s, m).value.template)
    && (forall a :: w.scriptOf(a).Some? ==> Lower(w.scriptOf(a).value) == w.scriptOf(a).value)
  }

  /** Any contract locked to this script is of this template. */
  ghost predicate LockedTo(w: World, script: string, template: string)
  {
    forall r, n :: w.facts(r, n).Some? && w.facts(r, n).value.lock == Lower(script) ==>
      w.facts(r, n).value.template == template
  }

  /** Every policy the template's contracts declare takes one input to one output. */
  ghost predicate OneToOne(w: World, template: string)
  {
    forall r, n :: w.facts(r, n).Some? && w.facts(r, n).value.template == template ==>
      forall d :: d in w.facts(r, n).value.declarations ==>
        BoundOf(w.facts(r, n).value, d.from) == Some(1) && BoundOf(w.facts(r, n).value, d.to) == Some(1)
  }

  /** The covenant was born, has at most one unspent output, and that output is locked to the template. */
  ghost predicate AtMostOne(l: Ledger, w: World, c: string, template: string)
  {
    && c in l.born
    && (forall p, q :: Live(l, p, c) && Live(l, q, c) ==> p == q)
    && (forall p :: Live(l, p, c) ==> LockedTo(w, l.utxos[p].script, template))
  }

  lemma LeadBounds(plan: Plan, w: World, leader: nat, template: string)
    requires leader < |plan.inputs| && LeadOf(plan, w, leader).Some? && FactsOf(plan, w, leader).Some?
    requires FactsOf(plan, w, leader).value.template == template && OneToOne(w, template)
    ensures LeadOf(plan, w, leader).value.to == 1
            && LeadOf(plan, w, leader).value.facts == FactsOf(plan, w, leader).value
  {
    hide BoundOf, DeclarationOf;
  }

  /** A family of a one-to-one covenant: its leader's facts are of the template, and it continues at most once. */
  lemma OneToOneFamily(l: Ledger, tx: Tx, next: Ledger, c: string, template: string, i: nat)
    requires Step(l, tx, next) && AtMostOne(l, tx.world, c, template) && OneToOne(tx.world, template)
    requires i in Members(tx.plan, c)
    ensures FamilyHolds(tx.plan, tx.world, c) && |Continuations(tx.plan, c)| <= 1
    ensures LeadOf(tx.plan, tx.world, Members(tx.plan, c)[0]).value.facts.template == template
    ensures forall p :: Live(l, p, c) ==> SpentBy(tx.plan, p)
  {
    hide Transition, Members, Continuations, LeadOf, MovesWith, RolesHold, LineageHolds, NextDeclared, OneToOne,
         FactsOf, OutputCovenant, Founds, Lower;
    MembersExact(tx.plan, c);
    var leader := Members(tx.plan, c)[0];
    InputIsLive(l, tx, next, leader, c);
    SpentInsideFamily(l, tx, next, leader, c);
    var p := tx.plan.inputs[leader].outpoint;
    LeaderLocked(tx.plan, tx.world, leader, l.utxos[p].script, template);
    LeadBounds(tx.plan, tx.world, leader, template);
  }

  lemma LeaderLocked(plan: Plan, w: World, leader: nat, script: string, template: string)
    requires leader < |plan.inputs| && FactsOf(plan, w, leader).Some?
             && FactsOf(plan, w, leader).value.lock == Lower(script)
    requires LockedTo(w, script, template)
    ensures FactsOf(plan, w, leader).value.template == template
  {
  }

  /** The one continuation of a family is locked to the family's template. */
  lemma ContinuationLocked(plan: Plan, w: World, c: string, o: nat, script: string, template: string)
    requires Shape(plan) && FamilyHolds(plan, w, c) && SuccessorHolds(plan, w, c) && Coherent(w)
    requires o in Continuations(plan, c) && |Continuations(plan, c)| <= 1
    requires w.scriptOf(plan.outputs[o].address) == Some(script)
    requires LeadOf(plan, w, Members(plan, c)[0]).value.facts.template == template
    ensures LockedTo(w, script, template)
  {
    hide Shape, Members, Continuations, MovesWith, RolesHold, LineageHolds, BoundOf, DeclarationOf, Lower;
    NextStatesFit(plan, w, c);
    assert Continuations(plan, c)[0] == o;
    assert Lower(script) == script;
    var leader := Members(plan, c)[0];
    var f := LeadOf(plan, w, leader).value.facts;
    assert FactsOf(plan, w, leader) == Some(f);
    var ref := plan.inputs[leader].contract.value;
    assert w.facts(ref.recordHash, ref.contract) == Some(f);
    var n := NextOf(plan.nextState, c).value;
    if n.next.Encoded? {
      assert w.lockAt(f, n.next.states[0]) == Some(script);
      forall r, m | w.facts(r, m).Some? && w.facts(r, m).value.lock == Lower(script)
        ensures w.facts(r, m).value.template == template {
        assert w.lockAt(w.facts(ref.recordHash, ref.contract).value, n.next.states[0])
               == Some(w.facts(r, m).value.lock);
      }
    } else {
      assert w.successor(leader).Some? && w.successor(leader).value.lock == script;
    }
  }

  lemma AtMostOneStep(l: Ledger, tx: Tx, next: Ledger, c: string, template: string)
    requires Step(l, tx, next) && Sound(l, tx.world.covenantIdOf) && IdsInjective(tx.world)
    requires AtMostOne(l, tx.world, c, template) && OneToOne(tx.world, template) && Coherent(tx.world)
    ensures AtMostOne(next, tx.world, c, template)
  {
    hide Transition, OutputCovenant, Founds, Lower, IdsInjective, OneToOne, Coherent, Members, Continuations, LockedTo;
    forall p | Live(next, p, c) ensures LockedTo(tx.world, next.utxos[p].script, template)
                                ensures p.txId == tx.txId ==>
                                          p.index < |tx.plan.outputs| && Continues(tx.plan, p.index, c)
                                ensures p.txId != tx.txId ==> Live(l, p, c) && !SpentBy(tx.plan, p)
    {
      if p.txId == tx.txId { NewLive(l, tx, next, c, template, p); }
    }
    forall p, q | Live(next, p, c) && Live(next, q, c) ensures p == q {
      if p.txId == tx.txId && q.txId == tx.txId {
        OneContinuation(l, tx, next, c, template, p.index, q.index);
      } else if p.txId == tx.txId {
        ContinuationSpends(l, tx, next, c, template, p.index);
      } else if q.txId == tx.txId {
        ContinuationSpends(l, tx, next, c, template, q.index);
      }
    }
  }

  /** An output that enters a born covenant continues it and is locked to its template. */
  lemma NewLive(l: Ledger, tx: Tx, next: Ledger, c: string, template: string, p: Outpoint)
    requires Step(l, tx, next) && Sound(l, tx.world.covenantIdOf) && IdsInjective(tx.world)
    requires AtMostOne(l, tx.world, c, template) && OneToOne(tx.world, template) && Coherent(tx.world)
    requires Live(next, p, c) && p.txId == tx.txId
    ensures p.index < |tx.plan.outputs| && Continues(tx.plan, p.index, c)
    ensures LockedTo(tx.world, next.utxos[p].script, template)
  {
    hide OutputCovenant, Lower, IdsInjective, OneToOne, Coherent, Members, Continuations, LockedTo, AtMostOne, Sound,
         FamilyHolds, SuccessorHolds, Shape, GenesisHolds, Authorized, ScriptsHold, OutputDeclared, FeeHolds,
         KindAgrees, RealInput, BindingHasOrigin;
    NewLiveOrigin(l, tx, next, p, c);
    NotRefounded(l, tx, next, c, template);
    var i := tx.plan.outputs[p.index].covenant.value.authorizingInput;
    ContinuationFamily(l, tx, next, c, p.index);
    OneToOneFamily(l, tx, next, c, template, i);
    ContinuationsExact(tx.plan, c);
    FamilySuccessor(l, tx, next, c, i);
    ContinuationLocked(tx.plan, tx.world, c, p.index, next.utxos[p].script, template);
  }

  lemma NotRefounded(l: Ledger, tx: Tx, next: Ledger, c: string, template: string)
    requires Step(l, tx, next) && Sound(l, tx.world.covenantIdOf) && IdsInjective(tx.world)
             && AtMostOne(l, tx.world, c, template)
    ensures !Founds(tx.plan, tx.world, c)
  {
    hide Sound, IdsInjective, GenesisId, OutputCovenant, Live, LockedTo, FamiliesHold, GenesisHolds, SuccessorHolds,
         Authorized, ScriptsHold, OutputDeclared, FeeHolds, KindAgrees, RealInput, BindingHasOrigin;
    forall g | 0 <= g < |tx.plan.groups| ensures GenesisId(tx.plan, tx.world, tx.plan.groups[g]) != c {
      FoundedFresh(l, tx, next, g);
    }
  }

  lemma ContinuationFamily(l: Ledger, tx: Tx, next: Ledger, c: string, o: nat)
    requires Step(l, tx, next) && o < |tx.plan.outputs| && Continues(tx.plan, o, c)
    ensures tx.plan.outputs[o].covenant.value.authorizingInput in Members(tx.plan, c)
  {
    hide OutputCovenant, Founds, Lower, Members, FamiliesHold, GenesisHolds, SuccessorHolds, Authorized, ScriptsHold,
         OutputDeclared, FeeHolds, KindAgrees, RealInput, Shape;
    assert BindingHasOrigin(tx.plan, o);
  }

  lemma FamilySuccessor(l: Ledger, tx: Tx, next: Ledger, c: string, i: nat)
    requires Step(l, tx, next) && i in Members(tx.plan, c)
    ensures Shape(tx.plan) && FamilyHolds(tx.plan, tx.world, c) && SuccessorHolds(tx.plan, tx.world, c)
  {
    hide OutputCovenant, Founds, Lower, Members, FamilyHolds, GenesisHolds, SuccessorHolds, Authorized, ScriptsHold,
         OutputDeclared, FeeHolds, KindAgrees, RealInput, Shape, BindingHasOrigin;
    MembersExact(tx.plan, c);
    assert Spends(tx.plan, i, c);
  }

  lemma OneContinuation(l: Ledger, tx: Tx, next: Ledger, c: string, template: string, a: nat, b: nat)
    requires Step(l, tx, next) && AtMostOne(l, tx.world, c, template) && OneToOne(tx.world, template)
    requires a < |tx.plan.outputs| && b < |tx.plan.outputs| && Continues(tx.plan, a, c) && Continues(tx.plan, b, c)
    ensures a == b
  {
    hide Step, AtMostOne, OneToOne, Members, Continuations, FamilyHolds, Lower;
    ContinuationFamily(l, tx, next, c, a);
    OneToOneFamily(l, tx, next, c, template, tx.plan.outputs[a].covenant.value.authorizingInput);
    ContinuationsExact(tx.plan, c);
  }

  lemma ContinuationSpends(l: Ledger, tx: Tx, next: Ledger, c: string, template: string, o: nat)
    requires Step(l, tx, next) && AtMostOne(l, tx.world, c, template) && OneToOne(tx.world, template)
    requires o < |tx.plan.outputs| && Continues(tx.plan, o, c)
    ensures forall p :: Live(l, p, c) ==> SpentBy(tx.plan, p)
  {
    hide Step, AtMostOne, OneToOne, Members, Continuations, FamilyHolds, Live, SpentBy, Lower;
    ContinuationFamily(l, tx, next, c, o);
    OneToOneFamily(l, tx, next, c, template, tx.plan.outputs[o].covenant.value.authorizingInput);
  }

  // ----- births

  lemma {:induction false} AuthOutputsIndices(plan: Plan, w: World, a: seq<nat>, b: seq<nat>)
    requires forall k :: 0 <= k < |a| ==> a[k] < |plan.outputs|
    requires forall k :: 0 <= k < |b| ==> b[k] < |plan.outputs|
    requires AuthOutputs(plan, w, a) == AuthOutputs(plan, w, b)
    ensures a == b
  {
    assert |AuthOutputs(plan, w, a)| == |a| && |AuthOutputs(plan, w, b)| == |b|;
    if a != [] {
      assert AuthOutputs(plan, w, a)[0].index == a[0] && AuthOutputs(plan, w, b)[0].index == b[0];
      assert AuthOutputs(plan, w, a)[1..] == AuthOutputs(plan, w, a[1..])
             && AuthOutputs(plan, w, b)[1..] == AuthOutputs(plan, w, b[1..]);
      AuthOutputsIndices(plan, w, a[1..], b[1..]);
      assert a == [a[0]] + a[1..] && b == [b[0]] + b[1..];
    }
  }

  lemma SameIdSameGroup(plan: Plan, w: World, g: nat, h: nat)
    requires Shape(plan) && IdsInjective(w) && g < |plan.groups| && h < |plan.groups|
    requires GenesisId(plan, w, plan.groups[g]) == GenesisId(plan, w, plan.groups[h])
    ensures plan.groups[g].outputs == plan.groups[h].outputs
  {
    hide AuthOutputs, Lower, InputShape, NextShape, Fee;
    assert GroupShape(plan, plan.groups[g]) && GroupShape(plan, plan.groups[h]);
    AuthOutputsIndices(plan, w, plan.groups[g].outputs, plan.groups[h].outputs);
  }

  /** The template of the contract a genesis group names. */
  ghost predicate GroupTemplate(plan: Plan, w: World, g: nat, template: string)
  {
    && g < |plan.groups| && plan.groups[g].contract.Some?
    && var ref := plan.groups[g].contract.value;
    w.facts(ref.recordHash, ref.contract).Some? && w.facts(ref.recordHash, ref.contract).value.template == template
  }

  lemma NewbornOutput(l: Ledger, tx: Tx, next: Ledger, g: nat, p: Outpoint)
    requires Step(l, tx, next) && Sound(l, tx.world.covenantIdOf) && IdsInjective(tx.world) && g < |tx.plan.groups|
    requires Live(next, p, GenesisId(tx.plan, tx.world, tx.plan.groups[g]))
    ensures p.txId == tx.txId && p.index in tx.plan.groups[g].outputs
  {
    hide FamiliesHold, Lower, Authorized, SuccessorHolds, GenesisHolds, FeeHolds, ScriptsHold, OutputDeclared,
         BindingHasOrigin, KindAgrees, RealInput, AuthOutputs, InGroup, Founds, IdsInjective, GenesisId;
    var c := GenesisId(tx.plan, tx.world, tx.plan.groups[g]);
    FoundedFresh(l, tx, next, g);
    assert forall q :: !Live(l, q, c);
    assert p.txId != tx.txId ==> Live(l, p, c);
    assert OutputCovenant(tx.plan, tx.world, p.index, next.utxos[p].covenantId);
    if tx.plan.outputs[p.index].covenant.Some? {
      var q := BoundOutputContinues(l, tx, next, p.index);
    } else {
      var h :| 0 <= h < |tx.plan.groups| && p.index in tx.plan.groups[h].outputs
        && next.utxos[p].covenantId == Some(GenesisId(tx.plan, tx.world, tx.plan.groups[h]));
      IdIsLower(tx.plan, tx.world, h);
      SameIdSameGroup(tx.plan, tx.world, g, h);
    }
  }

  lemma IdIsLower(plan: Plan, w: World, g: nat)
    requires Shape(plan) && IdsInjective(w) && g < |plan.groups|
    ensures Lower(GenesisId(plan, w, plan.groups[g])) == GenesisId(plan, w, plan.groups[g])
  {
    hide AuthOutputs, Lower, InputShape, NextShape, Fee;
  }

  lemma NewbornLocked(plan: Plan, w: World, g: nat, template: string, script: string)
    requires Shape(plan) && g < |plan.groups| && GenesisHolds(plan, w, plan.groups[g])
             && GroupTemplate(plan, w, g, template) && Coherent(w)
    requires |plan.groups[g].outputs| == 1
             && w.scriptOf(plan.outputs[plan.groups[g].outputs[0]].address) == Some(script)
    ensures LockedTo(w, script, template)
  {
    hide Lower, InputShape, NextShape, Fee, GenesisId;
    var group := plan.groups[g];
    var ref := group.contract.value;
    var f := w.facts(ref.recordHash, ref.contract).value;
    assert Lower(script) == script;
    if group.states.Some? {
      assert w.lockAt(f, group.states.value[0]) == Some(script);
      forall r, m | w.facts(r, m).Some? && w.facts(r, m).value.lock == Lower(script)
        ensures w.facts(r, m).value.template == template {
        assert w.lockAt(w.facts(ref.recordHash, ref.contract).value, group.states.value[0])
               == Some(w.facts(r, m).value.lock);
      }
    } else {
      assert f.lock == script;
    }
  }

  /** A covenant born in a one-output group has, after its birth, one unspent output, locked to its template. */
  lemma BirthOfOne(l: Ledger, tx: Tx, next: Ledger, g: nat, template: string)
    requires Step(l, tx, next) && Sound(l, tx.world.covenantIdOf) && IdsInjective(tx.world) && Coherent(tx.world)
    requires GroupTemplate(tx.plan, tx.world, g, template) && |tx.plan.groups[g].outputs| == 1
    ensures AtMostOne(next, tx.world, GenesisId(tx.plan, tx.world, tx.plan.groups[g]), template)
  {
    hide FamiliesHold, Lower, Authorized, SuccessorHolds, FeeHolds, ScriptsHold, OutputDeclared, BindingHasOrigin,
         KindAgrees, RealInput, IdsInjective, GenesisId, GenesisHolds, InputShape, NextShape, Fee, OutputCovenant,
         Coherent, LockedTo, Sound;
    var c := GenesisId(tx.plan, tx.world, tx.plan.groups[g]);
    assert Founds(tx.plan, tx.world, c);
    forall p | Live(next, p, c)
      ensures p == Outpoint(tx.txId, tx.plan.groups[g].outputs[0])
              && LockedTo(tx.world, next.utxos[p].script, template) {
      NewbornOutput(l, tx, next, g, p);
      NewbornLocked(tx.plan, tx.world, g, template, next.utxos[p].script);
    }
  }

  // ----- runs

  /** A run: each ledger follows from the one before by one accepted transaction. */
  ghost predicate Run(ls: seq<Ledger>, txs: seq<Tx>)
  {
    |ls| == |txs| + 1 && forall i :: 0 <= i < |txs| ==> Step(ls[i], txs[i], ls[i + 1])
  }

  /** The transactions see one chain: the same contracts, locks, addresses and covenant ids. */
  ghost predicate OneChain(base: World, txs: seq<Tx>)
  {
    forall i :: 0 <= i < |txs| ==> SameChain(base, txs[i].world)
  }

  ghost predicate SameChain(base: World, w: World)
  {
    && w.facts == base.facts && w.covenantIdOf == base.covenantIdOf
    && Coherent(w) && IdsInjective(w)
  }

  lemma {:induction false} SoundRun(ls: seq<Ledger>, txs: seq<Tx>, base: World, j: nat)
    requires Run(ls, txs) && OneChain(base, txs) && Sound(ls[0], base.covenantIdOf) && j < |ls|
    ensures Sound(ls[j], base.covenantIdOf)
  {
    hide Step, Sound, Coherent, IdsInjective;
    if j > 0 {
      SoundRun(ls, txs, base, j - 1);
      assert SameChain(base, txs[j - 1].world);
      assert Step(ls[j - 1], txs[j - 1], ls[j]);
      SoundStep(ls[j - 1], txs[j - 1], ls[j]);
    }
  }

  lemma AtMostOneChain(l: Ledger, v: World, w: World, c: string, template: string)
    requires v.facts == w.facts
    ensures AtMostOne(l, v, c, template) <==> AtMostOne(l, w, c, template)
    ensures OneToOne(v, template) <==> OneToOne(w, template)
  {
  }

  /**
   * In every run, a covenant born in a one-output group of a contract whose policies are all one-to-one has at most one
   * unspent output in every later state.
   */
  lemma {:induction false} OneToOneForever(ls: seq<Ledger>, txs: seq<Tx>, base: World, k: nat, g: nat, template: string,
                                           j: nat)
    requires Run(ls, txs) && OneChain(base, txs) && Sound(ls[0], base.covenantIdOf)
    requires k < |txs| && GroupTemplate(txs[k].plan, base, g, template) && |txs[k].plan.groups[g].outputs| == 1
    requires OneToOne(base, template) && k < j < |ls|
    ensures Shape(txs[k].plan)
    ensures AtMostOne(ls[j], base, GenesisId(txs[k].plan, txs[k].world, txs[k].plan.groups[g]), template)
    decreases j
  {
    hide Sound, Coherent, IdsInjective, AtMostOne, OneToOne, GenesisId, InputShape, NextShape, Fee, FamiliesHold,
         OutputCovenant, Founds, Live;
    assert Step(ls[k], txs[k], ls[k + 1]);
    var c := GenesisId(txs[k].plan, txs[k].world, txs[k].plan.groups[g]);
    var i := j - 1;
    assert SameChain(base, txs[i].world);
    assert Step(ls[i], txs[i], ls[j]);
    SoundRun(ls, txs, base, i);
    AtMostOneChain(ls[i], base, txs[i].world, c, template);
    AtMostOneChain(ls[j], base, txs[i].world, c, template);
    if i == k {
      BirthOfOne(ls[i], txs[i], ls[j], g, template);
    } else {
      OneToOneForever(ls, txs, base, k, g, template, i);
      AtMostOneStep(ls[i], txs[i], ls[j], c, template);
    }
  }

  /**
   * In every run, an output bound to a covenant (outside a genesis) enters only in a transaction that spends an output
   * of that covenant, and that output was unspent in the state before and is gone in the state after.
   */
  lemma BoundOutputsHaveParents(ls: seq<Ledger>, txs: seq<Tx>, base: World, i: nat, o: nat) returns (p: Outpoint)
    requires Run(ls, txs) && OneChain(base, txs) && Sound(ls[0], base.covenantIdOf)
    requires i < |txs| && o < |txs[i].plan.outputs| && txs[i].plan.outputs[o].covenant.Some?
    ensures SpentBy(txs[i].plan, p) && Live(ls[i], p, Lower(txs[i].plan.outputs[o].covenant.value.covenantId))
    ensures p !in ls[i + 1].utxos
  {
    hide Transition, OutputCovenant, Founds, Lower, Coherent, IdsInjective;
    assert Step(ls[i], txs[i], ls[i + 1]);
    p := BoundOutputContinues(ls[i], txs[i], ls[i + 1], o);
    SoundRun(ls, txs, base, i);
    SpentIsGone(ls[i], txs[i], ls[i + 1], p, base.covenantIdOf);
  }
}
