/**
 * Settling a fee against the mass of the transaction it leaves behind: the covenant builders, the sweep of a contract
 * output, and the funding of a script from a prefix of the given outputs.
 */
module Fees {
  import opened Common

  /** The amounts of a transaction, which with its scripts decide its mass. */
  datatype Tx = Tx(inputs: seq<int>, outputs: seq<int>)

  datatype Measured = Measured(mass: nat, minimumFee: nat, standard: bool)

  datatype Fault = InsufficientFunds | AboveStandardMass | BelowMinimum | Unresolved

  /** What a fee is settled against: the transaction each fee builds, the network's measure, and a rate per gram. */
  datatype Pricing = Pricing(build: int -> Result<Tx, Fault>, measure: Tx -> Measured, rate: Option<int>)

  const ROUNDS: nat := 8

  function Sum(xs: seq<int>): (n: int)
  {
    if xs == [] then 0 else xs[0] + Sum(xs[1..])
  }

  /** The fee a measured transaction must pay. */
  function Needed(m: Measured, rate: Option<int>): (n: int)
    ensures n >= m.minimumFee && (rate.Some? ==> n >= m.mass * rate.value)
    ensures n == m.minimumFee || n == (if rate.Some? then m.mass * rate.value else 0)
  {
    var byRate := if rate.Some? then m.mass * rate.value else 0;
    if m.minimumFee > byRate then m.minimumFee else byRate
  }

  /** What the transaction left by a fee requires; a failure when it cannot be built or is not standard. */
  function Required(p: Pricing, fee: int): (r: Result<int, Fault>)
  {
    match p.build(fee)
    case Err(e) => Err(e)
    case Ok(tx) => if p.measure(tx).standard then Ok(Needed(p.measure(tx), p.rate)) else Err(AboveStandardMass)
  }

  /** The fee pays for the very transaction it leaves behind. */
  predicate SelfConsistent(p: Pricing, fee: int)
  {
    Required(p, fee).Ok? && Required(p, fee).value <= fee
  }

  /** Raising the fee to what it requires, a bounded number of times. */
  function Settle(p: Pricing, fee: int, rounds: nat): (r: Result<int, Fault>)
    decreases rounds
  {
    if rounds == 0 then Err(Unresolved)
    else match Required(p, fee)
      case Err(e) => Err(e)
      case Ok(needed) => if needed <= fee then Ok(fee) else Settle(p, needed, rounds - 1)
  }

  /** The fees tried on the way. */
  function Tried(p: Pricing, fee: int, rounds: nat): (r: seq<int>)
    decreases rounds
  {
    if rounds == 0 then []
    else [fee] + match Required(p, fee)
                 case Err(_) => []
                 case Ok(needed) => if needed <= fee then [] else Tried(p, needed, rounds - 1)
  }

  /** A settled fee covers its own transaction, and it is the last fee tried. */
  lemma {:induction false} SettledCovers(p: Pricing, fee: int, rounds: nat)
    ensures Settle(p, fee, rounds).Ok? ==>
              && SelfConsistent(p, Settle(p, fee, rounds).value) && fee <= Settle(p, fee, rounds).value
              && Tried(p, fee, rounds) != []
              && Settle(p, fee, rounds).value == Tried(p, fee, rounds)[|Tried(p, fee, rounds)| - 1]
    decreases rounds
  {
    if rounds > 0 && Required(p, fee).Ok? && Required(p, fee).value > fee {
      SettledCovers(p, Required(p, fee).value, rounds - 1);
    }
  }

  /** The fees tried strictly increase, and every one before the last was too low for its own transaction. */
  lemma {:induction false} TriedRises(p: Pricing, fee: int, rounds: nat)
    ensures |Tried(p, fee, rounds)| <= rounds
    ensures forall i, j :: 0 <= i < j < |Tried(p, fee, rounds)| ==> Tried(p, fee, rounds)[i] < Tried(p, fee, rounds)[j]
    ensures forall i :: 0 <= i < |Tried(p, fee, rounds)| - 1 ==> !SelfConsistent(p, Tried(p, fee, rounds)[i])
    decreases rounds
  {
    if rounds > 0 && Required(p, fee).Ok? && Required(p, fee).value > fee {
      TriedRises(p, Required(p, fee).value, rounds - 1);
      var rest := Tried(p, Required(p, fee).value, rounds - 1);
      assert Tried(p, fee, rounds) == [fee] + rest;
      assert rest != [] ==> rest[0] == Required(p, fee).value;
    }
  }

  /** The fee after `n` raises, while every fee on the way builds a standard transaction. */
  function Raised(p: Pricing, fee: int, n: nat): (r: Option<int>)
    decreases n
  {
    if n == 0 then Some(fee)
    else match Required(p, fee)
      case Err(_) => None
      case Ok(needed) => Raised(p, needed, n - 1)
  }

  /** After `n` raises the fee pays for itself. */
  predicate PaysAfter(p: Pricing, fee: int, n: nat)
  {
    Raised(p, fee, n).Some? && SelfConsistent(p, Raised(p, fee, n).value)
  }

  /** The fee settles within the rounds exactly when fewer raises than rounds reach a fee that pays for itself. */
  lemma {:induction false} SettlesExactly(p: Pricing, fee: int, rounds: nat)
    ensures Settle(p, fee, rounds).Ok? <==> exists n: nat :: n < rounds && PaysAfter(p, fee, n)
    decreases rounds
  {
    if rounds > 0 {
      assert SelfConsistent(p, fee) <==> PaysAfter(p, fee, 0);
      if Required(p, fee).Err? {
        forall n: nat ensures !PaysAfter(p, fee, n) {}
      } else if Required(p, fee).value > fee {
        var needed := Required(p, fee).value;
        SettlesExactly(p, needed, rounds - 1);
        forall n: nat ensures PaysAfter(p, fee, n + 1) <==> PaysAfter(p, needed, n) {}
        if n: nat :| n < rounds - 1 && PaysAfter(p, needed, n) {
          assert PaysAfter(p, fee, n + 1);
        }
        if n: nat :| n < rounds && PaysAfter(p, fee, n) {
          assert PaysAfter(p, needed, n - 1);
        }
      }
    }
  }

  /** A fee up to `top` can be built, and no other. */
  ghost predicate BuildsUpTo(p: Pricing, top: int)
  {
    forall f :: (p.build(f).Ok? <==> f <= top) && (f > top ==> p.build(f) == Err(InsufficientFunds))
  }

  /**
   * The rounds never run out while the transactions in reach ask for fewer different fees than there are rounds; no
   * order among the requirements is needed.
   */
  lemma {:induction false} SettlesOverFewValues(p: Pricing, fee: int, rounds: nat, values: set<int>, top: int)
    requires BuildsUpTo(p, top)
    requires forall f :: f >= fee && Required(p, f).Ok? && Required(p, f).value > f ==> Required(p, f).value in values
    requires |values| < rounds
    ensures Settle(p, fee, rounds) != Err(Unresolved)
    decreases rounds
  {
    if Required(p, fee).Ok? && Required(p, fee).value > fee {
      var needed := Required(p, fee).value;
      SettlesOverFewValues(p, needed, rounds - 1, values - {needed}, top);
    }
  }

  /** A higher fee never leaves behind a transaction that requires less, while it is below the last one. */
  ghost predicate MonotoneBelow(p: Pricing, top: int)
  {
    forall a, b :: a <= b < top && Required(p, a).Ok? && Required(p, b).Ok? ==>
      Required(p, a).value <= Required(p, b).value
  }

  /**
   * For a measure monotone below the last fee that can be built, the settled fee is the least that pays for itself; and
   * when the rounds do not settle it, no fee that pays for itself is below any fee they tried. The last fee may require
   * anything: it is where the change output disappears.
   */
  lemma {:induction false} SettledIsLeast(p: Pricing, fee: int, rounds: nat, other: int, top: int)
    requires BuildsUpTo(p, top) && MonotoneBelow(p, top) && SelfConsistent(p, other) && fee <= other
    ensures Settle(p, fee, rounds).Ok? ==> Settle(p, fee, rounds).value <= other
    ensures Settle(p, fee, rounds) == Err(Unresolved) ==> forall f :: f in Tried(p, fee, rounds) ==> f <= other
    ensures other < top ==> Settle(p, fee, rounds) != Err(InsufficientFunds)
    decreases rounds
  {
    assert fee <= other <= top;
    if rounds > 0 && Required(p, fee).Ok? && Required(p, fee).value > fee {
      var needed := Required(p, fee).value;
      assert Settle(p, fee, rounds) == Settle(p, needed, rounds - 1);
      assert Tried(p, fee, rounds) == [fee] + Tried(p, needed, rounds - 1);
      if needed <= other {
        SettledIsLeast(p, needed, rounds - 1, other, top);
      } else {
        assert other == top && p.build(needed) == Err(InsufficientFunds);
        assert Settle(p, needed, rounds - 1) == if rounds == 1 then Err(Unresolved) else Err(InsufficientFunds);
      }
    }
  }

  /** settleFee: an explicit fee is used as given if it covers the minimum; otherwise the fee is raised from zero. */
  method SettleFee(p: Pricing, explicitFee: Option<int>) returns (r: Result<int, Fault>)
    ensures explicitFee.None? ==> r == Settle(p, 0, ROUNDS)
    ensures explicitFee.Some? ==> (r.Ok? <==> SelfConsistent(p.(rate := None), explicitFee.value))
    ensures explicitFee.Some? && r.Ok? ==> r.value == explicitFee.value
  {
    if explicitFee.Some? {
      var given := explicitFee.value;
      match p.build(given) {
        case Err(e) => return Err(e);
        case Ok(tx) =>
          var measured := p.measure(tx);
          if !measured.standard { return Err(AboveStandardMass); }
          if given < measured.minimumFee { return Err(BelowMinimum); }
          return Ok(given);
      }
    }
    var fee := 0;
    for round := 0 to ROUNDS
      invariant Settle(p, 0, ROUNDS) == Settle(p, fee, ROUNDS - round)
    {
      match p.build(fee) {
        case Err(e) => return Err(e);
        case Ok(tx) =>
          var measured := p.measure(tx);
          if !measured.standard { return Err(AboveStandardMass); }
          var byRate := if p.rate.Some? then measured.mass * p.rate.value else 0;
          var required := if measured.minimumFee > byRate then measured.minimumFee else byRate;
          if required <= fee { return Ok(fee); }
          fee := required;
      }
    }
    return Err(Unresolved);
  }

  // ----- the transactions

  /** Every transaction built spends exactly its outputs and the fee, and pays nothing negative or empty. */
  ghost predicate Balanced(build: int -> Result<Tx, Fault>)
  {
    forall fee :: build(fee).Ok? ==> Sum(build(fee).value.inputs) == Sum(build(fee).value.outputs) + fee
  }

  /** buildCovenantGenesis and buildScriptFunding: the value, and the change when there is any. */
  function WithChange(inputs: seq<int>, value: int): (b: int -> Result<Tx, Fault>)
    ensures forall fee :: b(fee).Ok? <==> value + fee <= Sum(inputs)
  {
    fee =>
      var change := Sum(inputs) - value - fee;
      if change < 0 then Err(InsufficientFunds) else Ok(Tx(inputs, if change > 0 then [value, change] else [value]))
  }

  /** buildCovenantTransition and buildSilverSweep: the whole value but the fee, which must leave something. */
  function Whole(amount: int): (b: int -> Result<Tx, Fault>)
    ensures forall fee :: b(fee).Ok? <==> fee < amount
  {
    fee => if amount - fee <= 0 then Err(InsufficientFunds) else Ok(Tx([amount], [amount - fee]))
  }

  /** The last fee each shape can be built with. */
  lemma BuildersReach(inputs: seq<int>, value: int, measure: Tx -> Measured, rate: Option<int>)
    ensures BuildsUpTo(Pricing(WithChange(inputs, value), measure, rate), Sum(inputs) - value)
    ensures BuildsUpTo(Pricing(Whole(value), measure, rate), value - 1)
  {
  }

  /**
   * Of a genesis or a funding whose measure is monotone while change is left, the settled fee is the least that pays
   * for itself, and it is not refused for want of funds when such a fee leaves change.
   */
  lemma LeastWithChange(inputs: seq<int>, value: int, measure: Tx -> Measured, rate: Option<int>, other: int)
    requires var p := Pricing(WithChange(inputs, value), measure, rate);
             MonotoneBelow(p, Sum(inputs) - value) && SelfConsistent(p, other) && other >= 0
    ensures var r := Settle(Pricing(WithChange(inputs, value), measure, rate), 0, ROUNDS);
            && (r.Ok? ==> r.value <= other)
            && (value + other < Sum(inputs) ==> r != Err(InsufficientFunds))
  {
    hide Sum, MonotoneBelow, BuildsUpTo, Settle, Tried;
    BuildersReach(inputs, value, measure, rate);
    SettledIsLeast(Pricing(WithChange(inputs, value), measure, rate), 0, ROUNDS, other, Sum(inputs) - value);
  }

  /**
   * What is paid, at every fee that can be built: a genesis or funding pays the value first and, when anything is left
   * over, exactly that second; a transition or sweep pays all but the fee in one output, which is never empty.
   */
  lemma BuildersPay(inputs: seq<int>, value: int, fee: int)
    ensures WithChange(inputs, value)(fee).Ok? ==>
              var tx := WithChange(inputs, value)(fee).value;
              && tx.inputs == inputs && |tx.outputs| >= 1 && tx.outputs[0] == value
              && (|tx.outputs| == 1 <==> Sum(inputs) == value + fee)
              && (|tx.outputs| == 2 <==> Sum(inputs) > value + fee)
              && (|tx.outputs| == 2 ==> value + tx.outputs[1] + fee == Sum(inputs))
    ensures Whole(value)(fee).Ok? ==>
              var tx := Whole(value)(fee).value;
              tx.inputs == [value] && |tx.outputs| == 1 && tx.outputs[0] + fee == value && tx.outputs[0] > 0
  {
    hide Sum;
  }

  lemma BuildersBalance(inputs: seq<int>, value: int)
    ensures Balanced(WithChange(inputs, value)) && Balanced(Whole(value))
  {
    forall a, b ensures Sum([a]) == a && Sum([a, b]) == a + b {
      assert [a][1..] == [] && [a, b][1..] == [b] && [b][1..] == [];
    }
    forall fee | WithChange(inputs, value)(fee).Ok?
      ensures var tx := WithChange(inputs, value)(fee).value; Sum(tx.inputs) == Sum(tx.outputs) + fee
    {
      var change := Sum(inputs) - value - fee;
      assert Sum([value, change]) == value + change && Sum([value]) == value;
    }
    forall fee | Whole(value)(fee).Ok?
      ensures var tx := Whole(value)(fee).value; Sum(tx.inputs) == Sum(tx.outputs) + fee {
      assert Sum([value]) == value && Sum([value - fee]) == value - fee;
    }
  }

  /** Whatever builder, a settled transaction spends its inputs on its outputs and a fee it has itself asked for. */
  lemma SettledBalances(p: Pricing)
    requires Balanced(p.build)
    ensures Settle(p, 0, ROUNDS).Ok? ==>
              var fee := Settle(p, 0, ROUNDS).value;
              && fee >= 0 && p.build(fee).Ok? && var tx := p.build(fee).value;
              && Sum(tx.inputs) == Sum(tx.outputs) + fee
              && p.measure(tx).standard && p.measure(tx).minimumFee <= fee
              && (p.rate.Some? ==> p.measure(tx).mass * p.rate.value <= fee)
  {
    SettledCovers(p, 0, ROUNDS);
  }

  /** The sweep's own loop, which carries what it priced last. */
  method SweepFee(amountIn: int, measure: Tx -> Measured, rate: Option<int>) returns (r: Result<int, Fault>)
    ensures r == Settle(Pricing(Whole(amountIn), measure, rate), 0, ROUNDS)
  {
    hide Sum, Needed;
    ghost var p := Pricing(Whole(amountIn), measure, rate);
    var fee, converged, round := 0, false, 0;
    while round < ROUNDS && !converged
      invariant 0 <= round <= ROUNDS
      invariant converged ==> Settle(p, 0, ROUNDS) == Ok(fee)
      invariant !converged ==> Settle(p, 0, ROUNDS) == Settle(p, fee, ROUNDS - round)
    {
      var amountOut := amountIn - fee;
      if amountOut <= 0 { return Err(InsufficientFunds); }
      var priced := measure(Tx([amountIn], [amountOut]));
      if !priced.standard { return Err(AboveStandardMass); }
      var required := Needed(priced, rate);
      assert Required(p, fee) == Ok(required);
      if required <= fee { converged := true; } else { fee := required; }
      round := round + 1;
    }
    if !converged { return Err(Unresolved); }
    return Ok(fee);
  }

  // ----- funding a script

  datatype Funded = Funded(spent: nat, fee: int, change: int)

  /** A prefix whose total exceeds the value is priced; what it comes to. */
  function Prefix(amounts: seq<int>, n: nat, value: int, measure: Tx -> Measured): (r: Result<int, Fault>)
    requires n <= |amounts|
  {
    if Sum(amounts[..n]) <= value then Err(InsufficientFunds)
    else Settle(Pricing(WithChange(amounts[..n], value), measure, None), 0, ROUNDS)
  }

  /** The prefix does not settle and does not stop the search. */
  predicate PassedOver(amounts: seq<int>, n: nat, value: int, measure: Tx -> Measured)
    requires n <= |amounts|
  {
    Prefix(amounts, n, value, measure) in [Err(InsufficientFunds), Err(Unresolved)]
  }

  /** One prefix: raise the fee until the total no longer covers it, it settles, or eight rounds are spent. */
  method PricePrefix(selected: seq<int>, total: int, value: int, measure: Tx -> Measured)
    returns (r: Result<int, Fault>)
    requires total == Sum(selected)
    ensures r == Settle(Pricing(WithChange(selected, value), measure, None), 0, ROUNDS)
  {
    hide Sum;
    ghost var p := Pricing(WithChange(selected, value), measure, None);
    var fee := 0;
    for round := 0 to ROUNDS
      invariant fee >= 0 && Settle(p, 0, ROUNDS) == Settle(p, fee, ROUNDS - round)
    {
      if total < value + fee { return Err(InsufficientFunds); }
      var change := total - value - fee;
      var measured := measure(Tx(selected, if change > 0 then [value, change] else [value]));
      if !measured.standard { return Err(AboveStandardMass); }
      if measured.minimumFee <= fee { return Ok(fee); }
      fee := measured.minimumFee;
    }
    return Err(Unresolved);
  }

  lemma {:induction false} SumSnoc(xs: seq<int>, n: nat)
    requires n < |xs|
    ensures Sum(xs[..n + 1]) == Sum(xs[..n]) + xs[n]
  {
    if n > 0 {
      SumSnoc(xs[1..], n - 1);
      assert xs[..n + 1][1..] == xs[1..][..n] && xs[..n][1..] == xs[1..][..n - 1];
    }
  }

  /** buildScriptFunding: the first prefix that settles is spent, exactly, on the value, the change and its fee. */
  method BuildScriptFunding(amounts: seq<int>, value: int, measure: Tx -> Measured) returns (r: Result<Funded, Fault>)
    ensures r.Ok? ==>
              && 0 < r.value.spent <= |amounts|
              && Prefix(amounts, r.value.spent, value, measure) == Ok(r.value.fee)
              && (forall m :: 0 < m < r.value.spent ==> PassedOver(amounts, m, value, measure))
              && Sum(amounts[..r.value.spent]) == value + r.value.change + r.value.fee && r.value.change >= 0
    ensures r == Err(InsufficientFunds) ==> forall m :: 0 < m <= |amounts| ==> PassedOver(amounts, m, value, measure)
    ensures r.Err? && r.error != InsufficientFunds ==>
              exists n :: 0 < n <= |amounts| && Prefix(amounts, n, value, measure) == Err(AboveStandardMass)
                          && forall m :: 0 < m < n ==> PassedOver(amounts, m, value, measure)
  {
    var total := 0;
    for n := 0 to |amounts|
      invariant total == Sum(amounts[..n])
      invariant forall m :: 0 < m <= n ==> PassedOver(amounts, m, value, measure)
    {
      SumSnoc(amounts, n);
      total := total + amounts[n];
      if total <= value { continue; }
      var priced := PricePrefix(amounts[..n + 1], total, value, measure);
      ghost var next := n + 1;
      assert Prefix(amounts, next, value, measure) == priced;
      if priced.Ok? {
        BuildersBalance(amounts[..n + 1], value);
        SettledBalances(Pricing(WithChange(amounts[..n + 1], value), measure, None));
        return Ok(Funded(n + 1, priced.value, total - value - priced.value));
      }
      if priced.error == AboveStandardMass { return Err(AboveStandardMass); }
      OnlyTheseFaults(Pricing(WithChange(amounts[..n + 1], value), measure, None), 0, ROUNDS);
    }
    return Err(InsufficientFunds);
  }

  lemma {:induction false} OnlyTheseFaults(p: Pricing, fee: int, rounds: nat)
    requires forall f :: p.build(f).Err? ==> p.build(f).error == InsufficientFunds
    ensures Settle(p, fee, rounds).Err? ==>
              Settle(p, fee, rounds).error in [InsufficientFunds, Unresolved, AboveStandardMass]
    decreases rounds
  {
    if rounds > 0 && Required(p, fee).Ok? && Required(p, fee).value > fee {
      OnlyTheseFaults(p, Required(p, fee).value, rounds - 1);
    }
  }
}
