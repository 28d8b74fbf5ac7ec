/** Value in the ledger: an accepted transaction takes out exactly its fee, and a run exactly the fees it paid. */
module Conservation {
  import opened Common
  import opened Covenant
  import opened Ledger

  /** The value of all unspent outputs. */
  ghost function Total(m: Utxos): int
  {
    if m == map[] then 0 else
      var p :| p in m;
      m[p].amount + Total(m - {p})
  }

  /** Any output can be counted first. */
  lemma {:induction false} TotalPick(m: Utxos, k: Outpoint)
    requires k in m
    ensures Total(m) == m[k].amount + Total(m - {k})
  {
    var p :| p in m && Total(m) == m[p].amount + Total(m - {p});
    if p != k {
      TotalPick(m - {p}, k);
      TotalPick(m - {k}, p);
      assert m - {p} - {k} == m - {k} - {p};
    }
  }

  /** The outputs left when the first `n` inputs are spent. */
  ghost function Unspent(m: Utxos, inputs: seq<PlanInput>, n: nat): Utxos
    requires n <= |inputs|
  {
    map p | p in m && (forall i :: 0 <= i < n ==> inputs[i].outpoint != p) :: m[p]
  }

  lemma {:induction false} TotalInSnoc(inputs: seq<PlanInput>, n: nat)
    requires n < |inputs|
    ensures TotalIn(inputs[..n + 1]) == TotalIn(inputs[..n]) + inputs[n].amount
  {
    if n > 0 {
      TotalInSnoc(inputs[1..], n - 1);
      assert inputs[..n + 1][1..] == inputs[1..][..n] && inputs[..n][1..] == inputs[1..][..n - 1];
    }
  }

  lemma {:induction false} TotalOutSnoc(outputs: seq<PlanOutput>, n: nat)
    requires n < |outputs|
    ensures TotalOut(outputs[..n + 1]) == TotalOut(outputs[..n]) + outputs[n].amount
  {
    if n > 0 {
      TotalOutSnoc(outputs[1..], n - 1);
      assert outputs[..n + 1][1..] == outputs[1..][..n] && outputs[..n][1..] == outputs[1..][..n - 1];
    }
  }

  lemma {:induction false} SpendingTakes(m: Utxos, inputs: seq<PlanInput>, n: nat)
    requires n <= |inputs|
    requires forall i :: 0 <= i < |inputs| ==>
               inputs[i].outpoint in m && m[inputs[i].outpoint].amount == inputs[i].amount
    requires forall i, j :: 0 <= i < j < |inputs| ==> inputs[i].outpoint != inputs[j].outpoint
    ensures Total(Unspent(m, inputs, n)) == Total(m) - TotalIn(inputs[..n])
  {
    if n == 0 {
      assert Unspent(m, inputs, 0) == m;
    } else {
      var p := inputs[n - 1].outpoint;
      SpendingTakes(m, inputs, n - 1);
      TotalPick(Unspent(m, inputs, n - 1), p);
      assert Unspent(m, inputs, n - 1) - {p} == Unspent(m, inputs, n);
      TotalInSnoc(inputs, n - 1);
    }
  }

  /** The ledger with only the first `n` outputs of transaction `id`. */
  ghost function Arrived(m: Utxos, id: string, n: nat): Utxos
  {
    map p | p in m && (p.txId == id ==> p.index < n) :: m[p]
  }

  lemma {:induction false} ArrivingAdds(m: Utxos, id: string, outputs: seq<PlanOutput>, n: nat)
    requires n <= |outputs|
    requires forall o :: 0 <= o < |outputs| ==> Outpoint(id, o) in m && m[Outpoint(id, o)].amount == outputs[o].amount
    ensures Total(Arrived(m, id, n)) == Total(Arrived(m, id, 0)) + TotalOut(outputs[..n])
  {
    if n > 0 {
      var p := Outpoint(id, n - 1);
      ArrivingAdds(m, id, outputs, n - 1);
      TotalPick(Arrived(m, id, n), p);
      assert Arrived(m, id, n) - {p} == Arrived(m, id, n - 1);
      TotalOutSnoc(outputs, n - 1);
    }
  }

  lemma StepInputs(l: Ledger, tx: Tx, next: Ledger)
    requires Step(l, tx, next)
    ensures forall i :: 0 <= i < |tx.plan.inputs| ==>
              tx.plan.inputs[i].outpoint in l.utxos
                && l.utxos[tx.plan.inputs[i].outpoint].amount == tx.plan.inputs[i].amount
    ensures forall i, j :: 0 <= i < j < |tx.plan.inputs| ==> tx.plan.inputs[i].outpoint != tx.plan.inputs[j].outpoint
    ensures 0 <= Fee(tx.plan) <= tx.plan.maxFee
    ensures tx.world.minimumFee(tx.plan).Some? && tx.world.minimumFee(tx.plan).value <= Fee(tx.plan)
  {
    hide FamiliesHold, Authorized, SuccessorHolds, GenesisHolds, ScriptsHold, OutputDeclared, BindingHasOrigin,
         OutputCovenant, KindAgrees, Founds, GenesisId, Fee, Lower;
    forall i | 0 <= i < |tx.plan.inputs|
      ensures tx.plan.inputs[i].outpoint in l.utxos
              && l.utxos[tx.plan.inputs[i].outpoint].amount == tx.plan.inputs[i].amount
    {
      assert RealInput(tx.plan, l.utxos, i);
    }
  }

  lemma StepOutputs(l: Ledger, tx: Tx, next: Ledger)
    requires Step(l, tx, next) && forall p :: p in l.utxos ==> p.txId in l.used
    ensures Arrived(next.utxos, tx.txId, 0) == Unspent(l.utxos, tx.plan.inputs, |tx.plan.inputs|)
    ensures Arrived(next.utxos, tx.txId, |tx.plan.outputs|) == next.utxos
    ensures forall o :: 0 <= o < |tx.plan.outputs| ==>
              Outpoint(tx.txId, o) in next.utxos && next.utxos[Outpoint(tx.txId, o)].amount == tx.plan.outputs[o].amount
  {
    hide Transition, OutputCovenant, Founds, GenesisId, Shape;
  }

  /** A step conserves value: what was unspent before is what is unspent after, plus the fee. */
  lemma StepConserves(l: Ledger, tx: Tx, next: Ledger)
    requires Step(l, tx, next) && forall p :: p in l.utxos ==> p.txId in l.used
    ensures Total(l.utxos) == Total(next.utxos) + Fee(tx.plan)
    ensures tx.world.minimumFee(tx.plan).Some? && tx.world.minimumFee(tx.plan).value <= Fee(tx.plan) <= tx.plan.maxFee
            && 0 <= Fee(tx.plan)
  {
    hide Step, Total, Arrived, Unspent;
    StepInputs(l, tx, next);
    StepOutputs(l, tx, next);
    SpendingTakes(l.utxos, tx.plan.inputs, |tx.plan.inputs|);
    ArrivingAdds(next.utxos, tx.txId, tx.plan.outputs, |tx.plan.outputs|);
    assert tx.plan.inputs[..|tx.plan.inputs|] == tx.plan.inputs
           && tx.plan.outputs[..|tx.plan.outputs|] == tx.plan.outputs;
  }

  ghost function FeesPaid(txs: seq<Tx>, j: nat): int
    requires j <= |txs|
  {
    if j == 0 then 0 else FeesPaid(txs, j - 1) + Fee(txs[j - 1].plan)
  }

  /** In every run, the value that left the ledger is exactly the fees paid so far. */
  lemma {:induction false} RunConserves(ls: seq<Ledger>, txs: seq<Tx>, base: World, j: nat)
    requires Run(ls, txs) && OneChain(base, txs) && Sound(ls[0], base.covenantIdOf) && j < |ls|
    ensures Total(ls[0].utxos) == Total(ls[j].utxos) + FeesPaid(txs, j)
    ensures Total(ls[j].utxos) <= Total(ls[0].utxos)
  {
    hide Step, Total, Live, OneChain, Fee;
    if j > 0 {
      RunConserves(ls, txs, base, j - 1);
      SoundRun(ls, txs, base, j - 1);
      assert Step(ls[j - 1], txs[j - 1], ls[j]);
      StepConserves(ls[j - 1], txs[j - 1], ls[j]);
    }
  }
}
