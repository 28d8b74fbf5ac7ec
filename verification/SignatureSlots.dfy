/**
 * The signer slots of a contract input: which arguments are signatures to come, and that the account named in each
 * holds a key the contract checks that signature against.
 */
module SignatureSlots {
  import opened Common
  import Covenant
  import opened SlotKeys
  import Inlining

  /** What the slots of an entry are read from: its parameters, and the source function they belong to. */
  datatype Source = Source(
    contract: Contract, fnName: string, params: seq<Param>, ctorArgs: seq<Covenant.Sil>,
    state: Option<map<string, Covenant.Sil>>)

  datatype Slot = Slot(argIndex: nat, param: string, signer: string, publicKey: string, allowed: seq<string>)

  datatype Fault = PlanInvalid | KeyUnresolved | KeyMismatch

  type KeyRing = Option<string -> Option<string>>

  /** The arguments the plan gives by value, by parameter; a later parameter of one name replaces an earlier one. */
  function FnArgs(params: seq<Param>, args: seq<Covenant.PlanArg>): (r: map<string, Covenant.Sil>)
  {
    if params == [] then map[]
    else
      var k := |params| - 1;
      var before := FnArgs(params[..k], args);
      if k < |args| && args[k].Value? then before[params[k].name := args[k].value] else before
  }

  /** The slots of the source function, at these arguments. */
  function SlotsAt(s: Source, args: seq<Covenant.PlanArg>): (r: map<string, Option<seq<Key>>>)
  {
    match FindFunction(s.contract.functions, s.fnName)
    case None => map[]
    case Some(fn) => SlotsOf(s.contract, fn, Given(s.ctorArgs, FnArgs(s.params, args), s.state))
  }

  /** The keys told for a parameter, if any are. */
  function ToldKeys(slots: map<string, Option<seq<Key>>>, param: string): (r: Option<seq<Key>>)
  {
    if param in slots then slots[param] else None
  }

  function HexDigit(n: int): (c: char)
    requires 0 <= n < 16
  {
    "0123456789abcdef"[n]
  }

  /** A key as lower-case hexadecimal text; a number outside a byte wraps. */
  function KeyText(key: Key): (r: string)
  {
    if key == [] then ""
    else
      var b := key[0] % 256;
      [HexDigit(b / 16), HexDigit(b % 16)] + KeyText(key[1..])
  }

  function Texts(keys: seq<Key>): (r: seq<string>)
    ensures |r| == |keys| && forall i :: 0 <= i < |r| ==> r[i] == KeyText(keys[i])
  {
    if keys == [] then [] else [KeyText(keys[0])] + Texts(keys[1..])
  }

  /**
   * The k-th argument is a signer exactly at a signature parameter; with a key ring, its key is one the slot is told.
   */
  predicate Fits(s: Source, args: seq<Covenant.PlanArg>, ring: KeyRing, k: nat)
    requires k < |s.params|
  {
    && k < |args|
    && (args[k].Signer? <==> s.params[k].base == "sig")
    && (args[k].Signer? && ring.Some? ==>
          && var told, pk := ToldKeys(SlotsAt(s, args), s.params[k].name), ring.value(args[k].account);
          && told.Some? && pk.Some? && Covenant.Lower(pk.value) in Texts(told.value))
  }

  predicate AllFit(s: Source, args: seq<Covenant.PlanArg>, ring: KeyRing)
  {
    forall k :: 0 <= k < |s.params| ==> Fits(s, args, ring, k)
  }

  /** What a slot records of the signature parameter it stands for. */
  predicate Records(s: Source, args: seq<Covenant.PlanArg>, ring: KeyRing, slot: Slot)
  {
    && slot.argIndex < |s.params| && slot.argIndex < |args| && args[slot.argIndex] == Covenant.Signer(slot.signer)
    && s.params[slot.argIndex] == Param(slot.param, "sig")
    && slot.allowed == (match ToldKeys(SlotsAt(s, args), slot.param)
                        case Some(keys) => Texts(keys)
                        case None => [])
    && (ring.None? ==> slot.publicKey == "")
    && (ring.Some? ==> slot.publicKey in slot.allowed && ring.value(slot.signer).Some?
                       && slot.publicKey == Covenant.Lower(ring.value(slot.signer).value))
  }

  /** The slots are those of the first `n` parameters: every signature one has its slot, in order. */
  ghost predicate Collected(s: Source, args: seq<Covenant.PlanArg>, ring: KeyRing, slots: seq<Slot>, n: nat)
    requires n <= |s.params|
  {
    && (forall j :: 0 <= j < |slots| ==> Records(s, args, ring, slots[j]) && slots[j].argIndex < n)
    && (forall i, j :: 0 <= i < j < |slots| ==> slots[i].argIndex < slots[j].argIndex)
    && (forall k :: 0 <= k < n && s.params[k].base == "sig" ==> exists j :: 0 <= j < |slots| && slots[j].argIndex == k)
  }

  lemma CollectedMore(s: Source, args: seq<Covenant.PlanArg>, ring: KeyRing, slots: seq<Slot>, slot: Slot, n: nat)
    requires n < |s.params| && Collected(s, args, ring, slots, n) && Records(s, args, ring, slot) && slot.argIndex == n
    ensures Collected(s, args, ring, slots + [slot], n + 1)
  {
    hide Records;
    var more := slots + [slot];
    assert more[|slots|] == slot && forall j :: 0 <= j < |slots| ==> more[j] == slots[j];
  }

  lemma CollectedSame(s: Source, args: seq<Covenant.PlanArg>, ring: KeyRing, slots: seq<Slot>, n: nat)
    requires n < |s.params| && Collected(s, args, ring, slots, n) && s.params[n].base != "sig"
    ensures Collected(s, args, ring, slots, n + 1)
  {
    hide Records;
  }

  /** The k-th argument against the k-th parameter: its slot when it is a signature, nothing when it is a value. */
  method ReadSlot(s: Source, args: seq<Covenant.PlanArg>, ring: KeyRing, keys: map<string, Option<seq<Key>>>, k: nat)
    returns (r: Result<Option<Slot>, Fault>)
    requires k < |s.params| && keys == SlotsAt(s, args)
    ensures r.Ok? <==> Fits(s, args, ring, k)
    ensures r.Ok? ==> if s.params[k].base == "sig" then
              r.value.Some? && r.value.value.argIndex == k && Records(s, args, ring, r.value.value)
                      else r.value.None?
  {
    hide SlotsAt, Texts, Covenant.Lower;
    if k >= |args| { return Err(PlanInvalid); }
    var p, a := s.params[k], args[k];
    if a.Signer? != (p.base == "sig") { return Err(PlanInvalid); }
    if p.base != "sig" { return Ok(None); }
    var told := ToldKeys(keys, p.name);
    var allowed := match told case Some(known) => Texts(known) case None => [];
    if ring.None? { return Ok(Some(Slot(k, p.name, a.account, "", allowed))); }
    if told.None? || ring.value(a.account).None? { return Err(KeyUnresolved); }
    var pk := Covenant.Lower(ring.value(a.account).value);
    if pk !in allowed { return Err(KeyMismatch); }
    return Ok(Some(Slot(k, p.name, a.account, pk, allowed)));
  }

  /** signatureSlots: the slots of an entry, refused at the first argument that does not fit its parameter. */
  method CollectSlots(s: Source, args: seq<Covenant.PlanArg>, ring: KeyRing) returns (r: Result<seq<Slot>, Fault>)
    ensures r.Ok? <==> AllFit(s, args, ring)
    ensures r.Ok? ==> Collected(s, args, ring, r.value, |s.params|)
  {
    hide SlotsAt, Collected, Records, Fits;
    var keys := SlotsAt(s, args);
    var slots: seq<Slot> := [];
    CollectedNone(s, args, ring);
    for k := 0 to |s.params|
      invariant forall j :: 0 <= j < k ==> Fits(s, args, ring, j)
      invariant Collected(s, args, ring, slots, k)
    {
      var read := ReadSlot(s, args, ring, keys, k);
      if read.Err? { return Err(read.error); }
      match read.value {
        case Some(slot) =>
          CollectedMore(s, args, ring, slots, slot, k);
          slots := slots + [slot];
        case None =>
          CollectedSame(s, args, ring, slots, k);
      }
    }
    return Ok(slots);
  }

  lemma CollectedNone(s: Source, args: seq<Covenant.PlanArg>, ring: KeyRing)
    ensures Collected(s, args, ring, [], 0)
  {
  }

  /** The foreign slot check of a world is this one, over the source it compiled. */
  ghost predicate ReadsSlots(w: Covenant.World, source: (Covenant.Facts, string) -> Source)
  {
    forall f, entry, args :: w.slotsResolved(f, entry, args) <==> AllFit(source(f, entry), args, w.publicKeyOf)
  }

  /** Some check of the signature names a key with this text. */
  ghost predicate CheckedAgainst(checks: seq<Check>, sig: string, text: string)
  {
    exists e, key :: e in checks && e.sig == sig && e.keys.Some? && key in e.keys.value && KeyText(key) == text
  }

  /** A key whose text a told slot allows is one some check names, and no check of the slot is left untold. */
  lemma AllowedIsChecked(checks: seq<Check>, sig: string, text: string)
    requires SlotOf(checks, sig).Some? && text in Texts(SlotOf(checks, sig).value)
    ensures CheckedAgainst(checks, sig, text)
    ensures forall e :: e in checks && e.sig == sig ==> e.keys.Some?
  {
    hide SlotOf, Covenant.Lower;
    var keys := SlotOf(checks, sig).value;
    var j :| 0 <= j < |keys| && Texts(keys)[j] == text;
    Inlining.SlotExact(checks, sig);
    assert keys[j] in keys;
  }

  lemma ShapeOfInput(plan: Covenant.Plan, i: nat)
    requires Covenant.Shape(plan) && i < |plan.inputs|
    ensures Covenant.InputShape(plan.inputs[i])
  {
    hide Covenant.InputShape;
  }

  /**
   * In an accepted transaction every signature a contract input takes is left to a signer, and where accounts have
   * keys, the signer's key is one the function checks that very signature against, by itself or through its helpers.
   */
  lemma AcceptedSigners(plan: Covenant.Plan, node: Covenant.Utxos, w: Covenant.World,
                        source: (Covenant.Facts, string) -> Source, i: nat, k: nat)
    requires Covenant.Transition(plan, node, w) && ReadsSlots(w, source)
    requires i < |plan.inputs| && !plan.inputs[i].kind.P2pk?
    ensures plan.inputs[i].contract.Some? && Covenant.FactsOf(plan, w, i).Some?
    ensures var c := plan.inputs[i].contract.value;
            var s := source(Covenant.FactsOf(plan, w, i).value, c.entry);
            k < |s.params| ==>
              && k < |c.args| && (c.args[k].Signer? <==> s.params[k].base == "sig")
              && (c.args[k].Signer? && w.publicKeyOf.Some? ==> SignerIsChecked(s, c.args, w.publicKeyOf.value, k))
  {
    hide Covenant.Shape, Covenant.FamiliesHold, Covenant.SuccessorHolds, Covenant.GenesisHolds, Covenant.FeeHolds;
    hide Covenant.ScriptsHold, Covenant.OutputDeclared, Covenant.BindingHasOrigin, Covenant.FactsOf, Covenant.Lower;
    hide SlotsOf, SlotOf, Texts, FnArgs, Covenant.StateArgument, Covenant.SignedAsPlanned, Covenant.StatesFor;
    ShapeOfInput(plan, i);
    assert Covenant.Authorized(plan, w, i);
    var c := plan.inputs[i].contract.value;
    var s := source(Covenant.FactsOf(plan, w, i).value, c.entry);
    if k < |s.params| {
      assert Fits(s, c.args, w.publicKeyOf, k);
      if c.args[k].Signer? && w.publicKeyOf.Some? {
        FittingIsChecked(s, c.args, w.publicKeyOf, k);
      }
    }
  }

  /**
   * The account in the k-th argument has a key, the function exists, and it checks the k-th signature against that key.
   */
  ghost predicate SignerIsChecked(s: Source, args: seq<Covenant.PlanArg>, keyOf: string -> Option<string>, k: nat)
    requires k < |s.params| && k < |args| && args[k].Signer?
  {
    && keyOf(args[k].account).Some? && FindFunction(s.contract.functions, s.fnName).Some?
    && var fn := FindFunction(s.contract.functions, s.fnName).value;
    && var checks := TopChecks(s.contract, fn, Given(s.ctorArgs, FnArgs(s.params, args), s.state));
    && CheckedAgainst(checks, s.params[k].name, Covenant.Lower(keyOf(args[k].account).value))
    && (forall e :: e in checks && e.sig == s.params[k].name ==> e.keys.Some?)
  }

  lemma FittingIsChecked(s: Source, args: seq<Covenant.PlanArg>, ring: KeyRing, k: nat)
    requires k < |s.params| && ring.Some? && Fits(s, args, ring, k) && args[k].Signer?
    ensures SignerIsChecked(s, args, ring.value, k)
  {
    hide TopChecks, SlotOf, Texts, Covenant.Lower, CheckedAgainst;
    var fn := FindFunction(s.contract.functions, s.fnName).value;
    var checks := TopChecks(s.contract, fn, Given(s.ctorArgs, FnArgs(s.params, args), s.state));
    AllowedIsChecked(checks, s.params[k].name, Covenant.Lower(ring.value(args[k].account).value));
  }

  // ----- texts and arguments

  /** The value of a lower-case hexadecimal digit. */
  ghost predicate HexDigitOf(c: char, n: int)
  {
    if 0 <= n < 10 then c as int == '0' as int + n else 10 <= n < 16 && c as int == 'a' as int + n - 10
  }

  /** A key's text is two lower-case hexadecimal digits for each of its bytes, high digit first. */
  lemma {:induction false} KeyTextExact(key: Key, i: nat)
    requires i < |key|
    ensures |KeyText(key)| == 2 * |key|
    ensures HexDigitOf(KeyText(key)[2 * i], key[i] % 256 / 16) && HexDigitOf(KeyText(key)[2 * i + 1], key[i] % 256 % 16)
  {
    hide HexDigitOf;
    var rest := key[1..];
    KeyTextStep(key);
    if i > 0 {
      KeyTextExact(rest, i - 1);
      assert rest[i - 1] == key[i];
    } else if |key| > 1 {
      KeyTextExact(rest, 0);
    }
  }

  lemma HexDigitExact(n: int)
    requires 0 <= n < 16
    ensures HexDigitOf(HexDigit(n), n)
  {
  }

  lemma KeyTextStep(key: Key)
    requires key != []
    ensures KeyText(key) == KeyText(key)[..2] + KeyText(key[1..]) && |KeyText(key)| == 2 + |KeyText(key[1..])|
    ensures HexDigitOf(KeyText(key)[0], key[0] % 256 / 16) && HexDigitOf(KeyText(key)[1], key[0] % 256 % 16)
  {
    hide HexDigit, HexDigitOf;
    var b := key[0] % 256;
    HexDigitExact(b / 16);
    HexDigitExact(b % 16);
    assert KeyText(key) == [HexDigit(b / 16), HexDigit(b % 16)] + KeyText(key[1..]);
  }

  /** A parameter's value is the one given at its last position that is given one; a signer gives none. */
  lemma {:induction false} FnArgsExact(params: seq<Param>, args: seq<Covenant.PlanArg>, x: string, v: Covenant.Sil)
    ensures x in FnArgs(params, args) && FnArgs(params, args)[x] == v <==>
              exists i :: GivenLast(params, args, x, v, i)
  {
    if params != [] {
      var k := |params| - 1;
      FnArgsExact(params[..k], args, x, v);
      if params[k].name == x && k < |args| && args[k].Value? {
        if args[k].value == v { assert GivenLast(params, args, x, v, k); }
      } else {
        if i :| GivenLast(params[..k], args, x, v, i) { assert GivenLast(params, args, x, v, i); }
        if i :| GivenLast(params, args, x, v, i) { assert GivenLast(params[..k], args, x, v, i); }
      }
    }
  }

  ghost predicate GivenLast(params: seq<Param>, args: seq<Covenant.PlanArg>, x: string, v: Covenant.Sil, i: int)
  {
    && 0 <= i < |params| && params[i].name == x && i < |args| && args[i] == Covenant.Value(v)
    && forall j :: i < j < |params| && params[j].name == x && j < |args| ==> args[j].Signer?
  }
}
