/**
 * A transaction signed in turns by several parties: drafts, their check, signing, combining, and the protocol in which
 * any number of parties sign and combine copies of one prepared draft in any order.
 */
module Drafts {
  import opened Common

  datatype Kind = P2pk | Contract

  datatype Slot = Slot(
    input: nat, kind: Kind, argIndex: Option<nat>, param: Option<string>, signer: string, publicKey: string,
      signature: Option<string>)

  /** A draft before it is sealed. */
  datatype Body = Body(
    schema: string, hardkasVersion: string, networkId: string, planArtifactId: string, txId: string, slots: seq<Slot>)

  datatype Draft = Draft(body: Body, contentHash: string)

  const DRAFT_SCHEMA: string := "hardkas.v1TxDraft"

  /**
   * The plan at hand and what is computed from it: its identity, the id of the transaction it builds, and whether a
   * signature is a valid SIGHASH_ALL signature of one of that transaction's inputs by a key; and the hash of a body.
   */
  datatype Context = Context(
    hash: Body -> string, planId: Option<string>, txId: string, valid: (nat, string, string) -> bool)

  datatype Fault = DraftInvalid | SignerNotInDraft | SlotKeyMismatch | SelfCheckFailed | SignatureInvalid

  predicate Hex130(s: string)
  {
    |s| == 130 && forall i :: 0 <= i < 130 ==> '0' <= s[i] <= '9' || 'a' <= s[i] <= 'f'
  }

  /** A valid signature is 65 bytes, printed as hexadecimal. */
  ghost predicate SixtyFiveBytes(cx: Context)
  {
    forall input, key, sig :: cx.valid(input, key, sig) ==> Hex130(sig)
  }

  function Seal(b: Body, cx: Context): (d: Draft)
  {
    Draft(b, cx.hash(b))
  }

  predicate WellShaped(slots: seq<Slot>)
  {
    forall i :: 0 <= i < |slots| ==> slots[i].signature.Some? ==> Hex130(slots[i].signature.value)
  }

  /** checkDraft: sealed, of this plan and its transaction, with signatures of 65 bytes. */
  predicate CheckDraft(d: Draft, cx: Context)
  {
    && d.body.schema == DRAFT_SCHEMA && cx.hash(d.body) == d.contentHash
    && cx.planId == Some(d.body.planArtifactId) && d.body.txId == cx.txId
    && WellShaped(d.body.slots)
  }

  /**
   * A contentHash names one draft of one plan and one transaction: two drafts that check under it, with bodies whose
   * hashes do not collide, are equal, were prepared for the same plan, and carry only 65-byte signatures.
   */
  lemma DraftBinds(d: Draft, e: Draft, cx: Context, dx: Context)
    requires CheckDraft(d, cx) && CheckDraft(e, dx) && d.contentHash == e.contentHash && cx.hash == dx.hash
    requires cx.hash(d.body) == cx.hash(e.body) ==> d.body == e.body
    ensures d == e && d.body.schema == "hardkas.v1TxDraft"
    ensures cx.planId == dx.planId == Some(d.body.planArtifactId) && cx.txId == dx.txId == d.body.txId
    ensures forall i :: 0 <= i < |d.body.slots| && d.body.slots[i].signature.Some? ==>
              |d.body.slots[i].signature.value| == 130
  {
  }

  /** So a draft whose body was changed under its contentHash is neither signed nor combined. */
  lemma TamperedIsRefused(d: Draft, body: Body, cx: Context, account: string, xOnly: string, made: nat -> string,
                          ds: seq<Draft>)
    requires CheckDraft(d, cx) && body != d.body && cx.hash(body) != cx.hash(d.body)
    ensures !MaySign(Draft(body, d.contentHash), cx, account, xOnly, made)
    ensures Draft(body, d.contentHash) in ds ==> !Combinable(ds, cx)
  {
    hide WellShaped, SameDraft, AllValid;
    var e := Draft(body, d.contentHash);
    assert !CheckDraft(e, cx);
  }

  function Erase(s: Slot): (r: Slot)
  {
    s.(signature := None)
  }

  /** The slots without their signatures. */
  function Shape(slots: seq<Slot>): (r: seq<Slot>)
    ensures |r| == |slots|
    ensures forall i :: 0 <= i < |slots| ==> r[i] == Erase(slots[i])
  {
    seq(|slots|, i requires 0 <= i < |slots| => Erase(slots[i]))
  }

  predicate SlotValid(s: Slot, cx: Context)
  {
    s.signature.Some? ==> cx.valid(s.input, s.publicKey, s.signature.value)
  }

  /** verifySlotSignatures: each signature present is by its slot's key. */
  predicate AllValid(slots: seq<Slot>, cx: Context)
  {
    forall i :: 0 <= i < |slots| ==> SlotValid(slots[i], cx)
  }

  method VerifySlotSignatures(slots: seq<Slot>, cx: Context) returns (ok: bool)
    ensures ok <==> AllValid(slots, cx)
  {
    for i := 0 to |slots|
      invariant forall j :: 0 <= j < i ==> SlotValid(slots[j], cx)
    {
      var s := slots[i];
      if s.signature.Some? && !cx.valid(s.input, s.publicKey, s.signature.value) { return false; }
    }
    return true;
  }

  // ----- signing

  predicate Mine(s: Slot, account: string)
  {
    s.signer == account
  }

  /** The slots with every one of the account's signed anew. */
  function Signed(slots: seq<Slot>, account: string, made: nat -> string): (r: seq<Slot>)
    ensures |r| == |slots|
    ensures forall i :: 0 <= i < |slots| ==>
              r[i] == if Mine(slots[i], account) then slots[i].(signature := Some(made(i))) else slots[i]
  {
    seq(|slots|, i requires 0 <= i < |slots| =>
          if Mine(slots[i], account) then slots[i].(signature := Some(made(i))) else slots[i])
  }

  /** The account has slots, the key is the one each of them is checked against, and what it signs verifies. */
  ghost predicate MaySign(d: Draft, cx: Context, account: string, xOnly: string, made: nat -> string)
  {
    && CheckDraft(d, cx)
    && (exists i :: 0 <= i < |d.body.slots| && Mine(d.body.slots[i], account))
    && (forall i :: 0 <= i < |d.body.slots| && Mine(d.body.slots[i], account) ==>
          d.body.slots[i].publicKey == xOnly && cx.valid(d.body.slots[i].input, xOnly, made(i)))
  }

  /**
   * signV1Draft: with the key every slot of the account is checked against. `made` is what kaspa-wasm signs for each
   * slot (Schnorr signatures are randomized); each is verified before the draft carries it.
   */
  method SignV1Draft(d: Draft, cx: Context, account: string, xOnly: string, made: nat -> string)
    returns (r: Result<Draft, Fault>)
    ensures r.Ok? <==> MaySign(d, cx, account, xOnly, made)
    ensures r.Ok? ==> r.value == Seal(d.body.(slots := Signed(d.body.slots, account, made)), cx)
  {
    if !CheckDraft(d, cx) { return Err(DraftInvalid); }
    var slots := d.body.slots;
    var mine := false;
    for i := 0 to |slots|
      invariant mine <==> exists j :: 0 <= j < i && Mine(slots[j], account)
    {
      if Mine(slots[i], account) { mine := true; }
    }
    if !mine { return Err(SignerNotInDraft); }
    for i := 0 to |slots|
      invariant forall j :: 0 <= j < i && Mine(slots[j], account) ==> slots[j].publicKey == xOnly
    {
      if Mine(slots[i], account) && slots[i].publicKey != xOnly { return Err(SlotKeyMismatch); }
    }
    var signed := Signed(slots, account, made);
    for i := 0 to |signed|
      invariant forall j :: 0 <= j < i && Mine(slots[j], account) ==> cx.valid(slots[j].input, xOnly, made(j))
    {
      if Mine(signed[i], account)
        && !cx.valid(signed[i].input, signed[i].publicKey, signed[i].signature.value) { return Err(SelfCheckFailed); }
    }
    return Ok(Seal(d.body.(slots := signed), cx));
  }

  // ----- combining

  /** The lower of two signatures, in the order of sort(). */
  function Lower(a: Option<string>, b: Option<string>): (r: Option<string>)
    ensures r.Some? <==> a.Some? || b.Some?
    ensures r == a || r == b
  {
    match (a, b)
    case (Some(x), Some(y)) => if KeyLess(y, x) then b else a
    case (Some(_), None) => a
    case (None, _) => b
  }

  lemma LowerLaws(a: Option<string>, b: Option<string>, c: Option<string>)
    ensures Lower(a, a) == a
    ensures Lower(a, b) == Lower(b, a)
    ensures Lower(Lower(a, b), c) == Lower(a, Lower(b, c))
  {
    if a.Some? && b.Some? { KeyLessTotal(a.value, b.value); Order(a.value, b.value); }
    if b.Some? && c.Some? { KeyLessTotal(b.value, c.value); Order(b.value, c.value); }
    if a.Some? && c.Some? { KeyLessTotal(a.value, c.value); Order(a.value, c.value); }
    if a.Some? && b.Some? && c.Some? { Chains(a.value, b.value, c.value); }
  }

  lemma Order(a: string, b: string)
    ensures !(KeyLess(a, b) && KeyLess(b, a))
  {
    if KeyLess(a, b) { KeyLessAsymmetric(a, b); }
  }

  lemma Chains(a: string, b: string, c: string)
    ensures KeyLess(c, b) && KeyLess(b, a) ==> KeyLess(c, a)
    ensures KeyLess(a, b) && KeyLess(b, c) ==> KeyLess(a, c)
    ensures KeyLess(b, a) && KeyLess(a, c) ==> KeyLess(b, c)
    ensures KeyLess(c, a) && KeyLess(a, b) ==> KeyLess(c, b)
  {
    if KeyLess(c, b) && KeyLess(b, a) { KeyLessTransitive(c, b, a); }
    if KeyLess(a, b) && KeyLess(b, c) { KeyLessTransitive(a, b, c); }
    if KeyLess(b, a) && KeyLess(a, c) { KeyLessTransitive(b, a, c); }
    if KeyLess(c, a) && KeyLess(a, b) { KeyLessTransitive(c, a, b); }
  }

  /** The lowest signature the drafts have for slot `i`. */
  function Lowest(ds: seq<Draft>, i: nat): (r: Option<string>)
    requires forall k :: 0 <= k < |ds| ==> i < |ds[k].body.slots|
  {
    if ds == [] then None else Lower(ds[0].body.slots[i].signature, Lowest(ds[1..], i))
  }

  /** The drafts are of one transaction and plan, with the same slots. */
  predicate SameDraft(d: Draft, e: Draft)
  {
    d.body.txId == e.body.txId && d.body.planArtifactId == e.body.planArtifactId
      && Shape(d.body.slots) == Shape(e.body.slots)
  }

  ghost predicate Combinable(ds: seq<Draft>, cx: Context)
  {
    && ds != []
    && (forall k :: 0 <= k < |ds| ==>
          CheckDraft(ds[k], cx) && SameDraft(ds[k], ds[0]) && AllValid(ds[k].body.slots, cx))
  }

  lemma SameLengths(ds: seq<Draft>, cx: Context)
    requires Combinable(ds, cx)
    ensures forall k :: 0 <= k < |ds| ==> |ds[k].body.slots| == |ds[0].body.slots|
  {
    forall k | 0 <= k < |ds| ensures |ds[k].body.slots| == |ds[0].body.slots| {
      assert |Shape(ds[k].body.slots)| == |Shape(ds[0].body.slots)|;
    }
  }

  /** The first draft's slots, each with the lowest signature any draft has for it. */
  ghost function Joined(ds: seq<Draft>, cx: Context): (r: seq<Slot>)
    requires Combinable(ds, cx)
    ensures |r| == |ds[0].body.slots|
    ensures forall i :: 0 <= i < |r| ==>
              (forall k :: 0 <= k < |ds| ==> i < |ds[k].body.slots|)
                && r[i] == ds[0].body.slots[i].(signature := Lowest(ds, i))
  {
    SameLengths(ds, cx);
    seq(|ds[0].body.slots|, i requires 0 <= i < |ds[0].body.slots| => ds[0].body.slots[i].(signature := Lowest(ds, i)))
  }

  lemma {:induction false} LowestSnoc(ds: seq<Draft>, d: Draft, i: nat)
    requires forall k :: 0 <= k < |ds + [d]| ==> i < |(ds + [d])[k].body.slots|
    ensures (forall k :: 0 <= k < |ds| ==> i < |ds[k].body.slots|) && i < |d.body.slots|
    ensures Lowest(ds + [d], i) == Lower(Lowest(ds, i), d.body.slots[i].signature)
  {
    assert (ds + [d])[|ds|] == d;
    assert forall k :: 0 <= k < |ds| ==> (ds + [d])[k] == ds[k];
    if ds == [] {
      assert (ds + [d])[1..] == [];
    } else {
      assert (ds + [d])[1..] == ds[1..] + [d] && (ds + [d])[0] == ds[0];
      LowestSnoc(ds[1..], d, i);
      LowerLaws(ds[0].body.slots[i].signature, Lowest(ds[1..], i), d.body.slots[i].signature);
    }
  }

  /** The lowest of the signatures that the drafts give a slot, as a loop over them finds it. */
  method LowestSignature(ds: seq<Draft>, i: nat) returns (r: Option<string>)
    requires forall k :: 0 <= k < |ds| ==> i < |ds[k].body.slots|
    ensures r == Lowest(ds, i)
  {
    r := None;
    for k := 0 to |ds|
      invariant r == Lowest(ds[..k], i)
    {
      assert ds[..k + 1] == ds[..k] + [ds[k]];
      LowestSnoc(ds[..k], ds[k], i);
      r := Lower(r, ds[k].body.slots[i].signature);
    }
    assert ds[..|ds|] == ds;
  }

  method AllMatch(ds: seq<Draft>, cx: Context) returns (fault: Option<Fault>)
    ensures fault.None? <==> Combinable(ds, cx)
  {
    if ds == [] { return Some(DraftInvalid); }
    for k := 0 to |ds|
      invariant forall j :: 0 <= j < k ==> CheckDraft(ds[j], cx)
    {
      if !CheckDraft(ds[k], cx) { return Some(DraftInvalid); }
    }
    for k := 0 to |ds|
      invariant forall j :: 0 <= j < k ==> SameDraft(ds[j], ds[0])
    {
      if !SameDraft(ds[k], ds[0]) { return Some(DraftInvalid); }
    }
    for k := 0 to |ds|
      invariant forall j :: 0 <= j < k ==> AllValid(ds[j].body.slots, cx)
    {
      var ok := VerifySlotSignatures(ds[k].body.slots, cx);
      if !ok { return Some(SignatureInvalid); }
    }
    return None;
  }

  /** combineV1Drafts. */
  method CombineV1Drafts(ds: seq<Draft>, cx: Context) returns (r: Result<Draft, Fault>)
    ensures r.Ok? <==> Combinable(ds, cx)
    ensures r.Ok? ==> r.value == Combined(ds, cx)
  {
    hide CheckDraft, SameDraft, AllValid;
    var fault := AllMatch(ds, cx);
    if fault.Some? { return Err(fault.value); }
    SameLengths(ds, cx);
    var slots := [];
    for i := 0 to |ds[0].body.slots|
      invariant |slots| == i
      invariant forall j :: 0 <= j < i ==> slots[j] == ds[0].body.slots[j].(signature := Lowest(ds, j))
    {
      var sig := LowestSignature(ds, i);
      slots := slots + [if sig.Some? then ds[0].body.slots[i].(signature := sig) else ds[0].body.slots[i]];
      LowestNone(ds, i);
    }
    assert slots == Joined(ds, cx);
    return Ok(Seal(ds[0].body.(slots := slots), cx));
  }

  /** No signature is found exactly when no draft has one. */
  lemma {:induction false} LowestNone(ds: seq<Draft>, i: nat)
    requires forall k :: 0 <= k < |ds| ==> i < |ds[k].body.slots|
    ensures Lowest(ds, i).None? <==> forall k :: 0 <= k < |ds| ==> ds[k].body.slots[i].signature.None?
    ensures Lowest(ds, i).Some? ==> exists k :: 0 <= k < |ds| && ds[k].body.slots[i].signature == Lowest(ds, i)
    ensures forall k :: 0 <= k < |ds| && ds[k].body.slots[i].signature.Some? ==>
              Lowest(ds, i).Some? && !KeyLess(ds[k].body.slots[i].signature.value, Lowest(ds, i).value)
  {
    if ds != [] {
      var rest := ds[1..];
      LowestNone(rest, i);
      assert forall k :: 0 <= k < |rest| ==> rest[k] == ds[k + 1];
      var x := ds[0].body.slots[i].signature;
      forall k | 0 <= k < |ds| && ds[k].body.slots[i].signature.Some?
        ensures Lowest(ds, i).Some? && !KeyLess(ds[k].body.slots[i].signature.value, Lowest(ds, i).value)
      {
        LowerIsLow(x, Lowest(rest, i));
        if k > 0 { assert ds[k] == rest[k - 1]; StillLow(ds[k].body.slots[i].signature.value, x, Lowest(rest, i)); }
      }
      if Lowest(ds, i).Some? && Lowest(ds, i) != x {
        var k :| 0 <= k < |rest| && rest[k].body.slots[i].signature == Lowest(rest, i);
        assert ds[k + 1].body.slots[i].signature == Lowest(ds, i);
      }
    }
  }

  lemma LowerIsLow(a: Option<string>, b: Option<string>)
    ensures a.Some? ==> !KeyLess(a.value, Lower(a, b).value)
    ensures b.Some? ==> !KeyLess(b.value, Lower(a, b).value)
  {
    if a.Some? { Order(a.value, a.value); }
    if b.Some? { Order(b.value, b.value); }
    if a.Some? && b.Some? { Order(a.value, b.value); }
  }

  lemma StillLow(s: string, a: Option<string>, b: Option<string>)
    requires b.Some? && !KeyLess(s, b.value)
    ensures !KeyLess(s, Lower(a, b).value)
  {
    if a.Some? && KeyLess(s, a.value) && Lower(a, b) == a {
      KeyLessTotal(a.value, b.value);
      if KeyLess(a.value, b.value) { KeyLessTransitive(s, a.value, b.value); }
    }
  }

  // ----- combining is a join

  lemma Antisymmetric(a: Option<string>, b: Option<string>)
    requires a.Some? <==> b.Some?
    requires a.Some? ==> !KeyLess(a.value, b.value) && !KeyLess(b.value, a.value)
    ensures a == b
  {
    if a.Some? { KeyLessTotal(a.value, b.value); }
  }

  lemma LowestReaches(ds: seq<Draft>, es: seq<Draft>, i: nat)
    requires forall k :: 0 <= k < |ds| ==> i < |ds[k].body.slots|
    requires forall k :: 0 <= k < |es| ==> i < |es[k].body.slots|
    requires forall d :: d in ds ==> d in es
    ensures Lowest(ds, i).Some? ==> Lowest(es, i).Some? && !KeyLess(Lowest(ds, i).value, Lowest(es, i).value)
  {
    hide Lowest;
    LowestNone(ds, i);
    LowestNone(es, i);
    if Lowest(ds, i).Some? {
      var k :| 0 <= k < |ds| && ds[k].body.slots[i].signature == Lowest(ds, i);
      assert ds[k] in es;
      var m :| 0 <= m < |es| && es[m] == ds[k];
    }
  }

  ghost predicate SameMembers(ds: seq<Draft>, es: seq<Draft>)
  {
    forall d :: d in ds <==> d in es
  }

  /** The order in which drafts come, and how often each does, changes no slot of the combination. */
  lemma CombineIgnoresOrder(ds: seq<Draft>, es: seq<Draft>, cx: Context)
    requires Combinable(ds, cx) && Combinable(es, cx) && SameMembers(ds, es)
    ensures Joined(ds, cx) == Joined(es, cx)
  {
    hide Lowest;
    assert ds[0] in es;
    var m :| 0 <= m < |es| && es[m] == ds[0];
    SameShape(ds[0], es[0], cx, es, m);
    var a, b := Joined(ds, cx), Joined(es, cx);
    forall i | 0 <= i < |a| ensures a[i] == b[i] {
      LowestReaches(ds, es, i);
      LowestReaches(es, ds, i);
      Antisymmetric(Lowest(ds, i), Lowest(es, i));
      assert Shape(ds[0].body.slots)[i] == Shape(es[0].body.slots)[i];
    }
  }

  lemma SameShape(d: Draft, e: Draft, cx: Context, es: seq<Draft>, m: nat)
    requires Combinable(es, cx) && m < |es| && es[m] == d && e == es[0]
    ensures Shape(d.body.slots) == Shape(e.body.slots) && |d.body.slots| == |e.body.slots|
  {
    assert |Shape(d.body.slots)| == |Shape(e.body.slots)|;
  }

  lemma {:induction false} LowestAppend(xs: seq<Draft>, ys: seq<Draft>, i: nat)
    requires forall k :: 0 <= k < |xs| ==> i < |xs[k].body.slots|
    requires forall k :: 0 <= k < |ys| ==> i < |ys[k].body.slots|
    ensures (forall k :: 0 <= k < |xs + ys| ==> i < |(xs + ys)[k].body.slots|)
            && Lowest(xs + ys, i) == Lower(Lowest(xs, i), Lowest(ys, i))
  {
    if xs == [] {
      assert xs + ys == ys;
    } else {
      assert (xs + ys)[1..] == xs[1..] + ys && (xs + ys)[0] == xs[0];
      LowestAppend(xs[1..], ys, i);
      LowerLaws(xs[0].body.slots[i].signature, Lowest(xs[1..], i), Lowest(ys, i));
    }
  }

  /** What combining gives. */
  ghost function Combined(ds: seq<Draft>, cx: Context): Draft
    requires Combinable(ds, cx)
  {
    Seal(ds[0].body.(slots := Joined(ds, cx)), cx)
  }

  /**
   * A combination is a draft of the same transaction and slots: it checks, and every signature in it is by its slot's
   * key.
   */
  lemma CombinedChecks(ds: seq<Draft>, cx: Context)
    requires Combinable(ds, cx)
    ensures CheckDraft(Combined(ds, cx), cx) && AllValid(Combined(ds, cx).body.slots, cx)
            && SameDraft(Combined(ds, cx), ds[0])
  {
    hide Lowest;
    SameLengths(ds, cx);
    var first, slots := ds[0].body.slots, Joined(ds, cx);
    forall i | 0 <= i < |slots|
      ensures SlotValid(slots[i], cx) && (slots[i].signature.Some? ==> Hex130(slots[i].signature.value))
              && Erase(slots[i]) == Erase(first[i])
    {
      LowestNone(ds, i);
      if slots[i].signature.Some? {
        var k :| 0 <= k < |ds| && ds[k].body.slots[i].signature == Lowest(ds, i);
        assert Shape(ds[k].body.slots)[i] == Shape(ds[0].body.slots)[i];
        assert CheckDraft(ds[k], cx) && SlotValid(ds[k].body.slots[i], cx);
      }
    }
    assert Shape(slots) == Shape(first);
  }

  /** A slot is signed in a combination exactly when it is in some operand, and never by a higher signature than any. */
  lemma CombinedSigned(ds: seq<Draft>, cx: Context, i: nat)
    requires Combinable(ds, cx) && i < |ds[0].body.slots|
    ensures var slot := Combined(ds, cx).body.slots[i];
            && (forall k :: 0 <= k < |ds| ==> i < |ds[k].body.slots|)
            && (slot.signature.Some? <==> exists k :: 0 <= k < |ds| && ds[k].body.slots[i].signature.Some?)
            && (slot.signature.Some? ==> exists k :: 0 <= k < |ds| && ds[k].body.slots[i].signature == slot.signature)
            && (forall k :: 0 <= k < |ds| && ds[k].body.slots[i].signature.Some? ==>
                  !KeyLess(ds[k].body.slots[i].signature.value, slot.signature.value))
  {
    hide Lowest;
    SameLengths(ds, cx);
    LowestNone(ds, i);
  }

  lemma CombinableGroups(xs: seq<Draft>, ys: seq<Draft>, cx: Context)
    requires Combinable(xs + ys, cx) && xs != [] && ys != []
    ensures Combinable(xs, cx) && Combinable(ys, cx) && Combinable(xs + [Combined(ys, cx)], cx)
  {
    hide CheckDraft, AllValid;
    var all := xs + ys;
    assert forall k :: 0 <= k < |xs| ==> all[k] == xs[k];
    assert forall k :: 0 <= k < |ys| ==> all[|xs| + k] == ys[k];
    assert SameDraft(ys[0], all[0]);
    forall k | 0 <= k < |ys| ensures SameDraft(ys[k], ys[0]) { assert SameDraft(all[|xs| + k], all[0]); }
    CombinedChecks(ys, cx);
    var grouped := xs + [Combined(ys, cx)];
    assert grouped[0] == xs[0];
  }

  /** Combining a combination changes no slot: drafts may be combined in any groups. */
  lemma CombineInGroups(xs: seq<Draft>, ys: seq<Draft>, cx: Context)
    requires Combinable(xs + ys, cx) && xs != [] && ys != []
    ensures Combinable(ys, cx) && Combinable(xs + [Combined(ys, cx)], cx)
    ensures Joined(xs + [Combined(ys, cx)], cx) == Joined(xs + ys, cx)
  {
    hide Lowest, Combinable;
    CombinableGroups(xs, ys, cx);
    var grouped := xs + [Combined(ys, cx)];
    SameLengths(xs + ys, cx);
    SameLengths(ys, cx);
    SameLengths(xs, cx);
    SameLengths(grouped, cx);
    assert grouped[0] == xs[0] && (xs + ys)[0] == xs[0] && grouped[|xs|] == Combined(ys, cx)
           && (xs + ys)[|xs|] == ys[0];
    forall i | 0 <= i < |xs[0].body.slots| ensures Joined(grouped, cx)[i] == Joined(xs + ys, cx)[i] {
      LowestAppend(xs, ys, i);
      LowestAppend(xs, [Combined(ys, cx)], i);
      LowestOne(Combined(ys, cx), i);
    }
  }

  lemma LowestOne(d: Draft, i: nat)
    requires i < |d.body.slots|
    ensures Lowest([d], i) == d.body.slots[i].signature
  {
    assert [d][1..] == [];
  }

  // ----- the protocol

  /** A party signs one of the drafts around, or someone combines some of them; either way one more draft is around. */
  datatype Step =
    | Sign(draft: nat, account: string, xOnly: string, made: nat -> string)
    | Combine(drafts: seq<nat>)

  function Selected(pool: seq<Draft>, ks: seq<nat>): (r: seq<Draft>)
    requires forall j :: 0 <= j < |ks| ==> ks[j] < |pool|
    ensures |r| == |ks| && forall j :: 0 <= j < |ks| ==> r[j] == pool[ks[j]]
  {
    seq(|ks|, j requires 0 <= j < |ks| => pool[ks[j]])
  }

  /** The draft a step adds, if the operation succeeds. */
  ghost function Adds(pool: seq<Draft>, step: Step, cx: Context): Option<Draft>
  {
    match step
    case Sign(k, account, xOnly, made) =>
      if k < |pool| && MaySign(pool[k], cx, account, xOnly, made) then
        Some(Seal(pool[k].body.(slots := Signed(pool[k].body.slots, account, made)), cx))
      else None
    case Combine(ks) =>
      if (forall j :: 0 <= j < |ks| ==> ks[j] < |pool|) && Combinable(Selected(pool, ks), cx) then
        Some(Combined(Selected(pool, ks), cx))
      else None
  }

  /** The drafts around after a run of successful steps. */
  ghost function Around(prepared: Draft, steps: seq<Step>, cx: Context): Option<seq<Draft>>
    decreases |steps|
  {
    if steps == [] then Some([prepared])
    else
      var n := |steps| - 1;
      match Around(prepared, steps[..n], cx)
      case None => None
      case Some(pool) =>
        match Adds(pool, steps[n], cx)
        case Some(d) => Some(pool + [d])
        case None => None
  }

  /** A draft that checks, of the prepared transaction and slots, whose signatures are all by their slots' keys. */
  predicate Kin(d: Draft, prepared: Draft, cx: Context)
  {
    CheckDraft(d, cx) && SameDraft(d, prepared) && AllValid(d.body.slots, cx)
  }

  lemma SigningKeepsKin(d: Draft, prepared: Draft, cx: Context, account: string, xOnly: string, made: nat -> string)
    requires Kin(d, prepared, cx) && MaySign(d, cx, account, xOnly, made) && SixtyFiveBytes(cx)
    ensures Kin(Seal(d.body.(slots := Signed(d.body.slots, account, made)), cx), prepared, cx)
  {
    hide Hex130;
    var slots := Signed(d.body.slots, account, made);
    forall i | 0 <= i < |slots|
      ensures SlotValid(slots[i], cx) && Erase(slots[i]) == Erase(d.body.slots[i])
              && (slots[i].signature.Some? ==> Hex130(slots[i].signature.value)) {
      assert SlotValid(d.body.slots[i], cx);
    }
    assert Shape(slots) == Shape(d.body.slots);
  }

  lemma CombiningKeepsKin(ds: seq<Draft>, prepared: Draft, cx: Context)
    requires ds != [] && forall k :: 0 <= k < |ds| ==> Kin(ds[k], prepared, cx)
    ensures Combinable(ds, cx) && Kin(Combined(ds, cx), prepared, cx)
  {
    hide CheckDraft, AllValid, Combined;
    CombinedChecks(ds, cx);
  }

  lemma AddedIsKin(pool: seq<Draft>, step: Step, prepared: Draft, cx: Context)
    requires (forall k :: 0 <= k < |pool| ==> Kin(pool[k], prepared, cx)) && Adds(pool, step, cx).Some?
             && SixtyFiveBytes(cx)
    ensures Kin(Adds(pool, step, cx).value, prepared, cx)
  {
    hide Kin, MaySign, Combined, SixtyFiveBytes;
    match step
    case Sign(k, account, xOnly, made) => SigningKeepsKin(pool[k], prepared, cx, account, xOnly, made);
    case Combine(ks) => CombiningKeepsKin(Selected(pool, ks), prepared, cx);
  }

  /**
   * Over every interleaving of signing and combining from one prepared draft, every draft around checks, is of the
   * prepared transaction, plan and slots, and carries only signatures by its slots' keys.
   */
  lemma {:induction false} EveryDraftIsKin(prepared: Draft, steps: seq<Step>, cx: Context, k: nat)
    requires Kin(prepared, prepared, cx) && SixtyFiveBytes(cx)
    requires Around(prepared, steps, cx).Some? && k < |Around(prepared, steps, cx).value|
    ensures Kin(Around(prepared, steps, cx).value[k], prepared, cx)
    decreases |steps|
  {
    hide Kin, Adds, SixtyFiveBytes;
    if steps != [] {
      var n := |steps| - 1;
      var pool := Around(prepared, steps[..n], cx).value;
      forall j | 0 <= j < |pool| ensures Kin(pool[j], prepared, cx) { EveryDraftIsKin(prepared, steps[..n], cx, j); }
      AddedIsKin(pool, steps[n], prepared, cx);
    }
  }

  /** Whatever drafts are around can be combined. */
  lemma AnyDraftsCombine(prepared: Draft, steps: seq<Step>, cx: Context, ks: seq<nat>)
    requires Kin(prepared, prepared, cx) && SixtyFiveBytes(cx) && Around(prepared, steps, cx).Some? && ks != []
    requires forall j :: 0 <= j < |ks| ==> ks[j] < |Around(prepared, steps, cx).value|
    ensures Combinable(Selected(Around(prepared, steps, cx).value, ks), cx)
  {
    hide Kin, Around, SixtyFiveBytes;
    var pool := Around(prepared, steps, cx).value;
    var ds := Selected(pool, ks);
    forall j | 0 <= j < |ds| ensures Kin(ds[j], prepared, cx) { EveryDraftIsKin(prepared, steps, cx, ks[j]); }
    CombiningKeepsKin(ds, prepared, cx);
  }

  // ----- who has signed

  ghost predicate SignedBy(steps: seq<Step>, account: string)
  {
    exists j :: 0 <= j < |steps| && steps[j].Sign? && steps[j].account == account
  }

  ghost predicate SomeSigned(pool: seq<Draft>, i: nat)
  {
    exists k :: 0 <= k < |pool| && i < |pool[k].body.slots| && pool[k].body.slots[i].signature.Some?
  }

  predicate Unsigned(d: Draft)
  {
    forall i :: 0 <= i < |d.body.slots| ==> d.body.slots[i].signature.None?
  }

  /** The draft a step adds has slot `i` signed only if some draft had, or the step is its signer's; and then it has. */
  lemma AddedSigned(pool: seq<Draft>, step: Step, prepared: Draft, cx: Context, i: nat)
    requires (forall k :: 0 <= k < |pool| ==> Kin(pool[k], prepared, cx)) && Adds(pool, step, cx).Some?
             && i < |prepared.body.slots|
    ensures var d := Adds(pool, step, cx).value;
            && i < |d.body.slots|
            && (d.body.slots[i].signature.Some? ==>
                  SomeSigned(pool, i) || (step.Sign? && step.account == prepared.body.slots[i].signer))
            && (step.Sign? && step.account == prepared.body.slots[i].signer ==> d.body.slots[i].signature.Some?)
  {
    hide CheckDraft, AllValid, MaySign, Lowest;
    match step {
      case Sign(k, account, xOnly, made) =>
        KinSlot(pool[k], prepared, cx, i);
      case Combine(ks) =>
        var ds := Selected(pool, ks);
        KinSlot(ds[0], prepared, cx, i);
        CombinedSigned(ds, cx, i);
        if Combined(ds, cx).body.slots[i].signature.Some? {
          var k :| 0 <= k < |ds| && ds[k].body.slots[i].signature.Some?;
          assert pool[ks[k]].body.slots[i].signature.Some?;
        }
    }
  }

  lemma KinSlot(d: Draft, prepared: Draft, cx: Context, i: nat)
    requires Kin(d, prepared, cx) && i < |prepared.body.slots|
    ensures |d.body.slots| == |prepared.body.slots| && Erase(d.body.slots[i]) == Erase(prepared.body.slots[i])
  {
    assert |Shape(d.body.slots)| == |Shape(prepared.body.slots)|;
    assert Shape(d.body.slots)[i] == Shape(prepared.body.slots)[i];
  }

  /** In every run from an unsigned draft, a slot is signed somewhere exactly when its signer has signed. */
  lemma {:induction false} SignedExactlyBySigners(prepared: Draft, steps: seq<Step>, cx: Context, i: nat)
    requires Kin(prepared, prepared, cx) && Unsigned(prepared) && SixtyFiveBytes(cx) && i < |prepared.body.slots|
    requires Around(prepared, steps, cx).Some?
    ensures SomeSigned(Around(prepared, steps, cx).value, i) <==> SignedBy(steps, prepared.body.slots[i].signer)
    decreases |steps|
  {
    hide Kin, Adds, SixtyFiveBytes;
    var signer := prepared.body.slots[i].signer;
    if steps != [] {
      var n := |steps| - 1;
      var pool, d := Around(prepared, steps[..n], cx).value,
        Adds(Around(prepared, steps[..n], cx).value, steps[n], cx).value;
      SignedExactlyBySigners(prepared, steps[..n], cx, i);
      forall j | 0 <= j < |pool| ensures Kin(pool[j], prepared, cx) { EveryDraftIsKin(prepared, steps[..n], cx, j); }
      AddedSigned(pool, steps[n], prepared, cx, i);
      SomeSignedSnoc(pool, d, i);
      SignedBySnoc(steps, signer);
    }
  }

  lemma SomeSignedSnoc(pool: seq<Draft>, d: Draft, i: nat)
    ensures SomeSigned(pool + [d], i) <==>
              SomeSigned(pool, i) || (i < |d.body.slots| && d.body.slots[i].signature.Some?)
  {
    var more := pool + [d];
    assert more[|pool|] == d && forall k :: 0 <= k < |pool| ==> more[k] == pool[k];
    if SomeSigned(pool, i) {
      var k :| 0 <= k < |pool| && i < |pool[k].body.slots| && pool[k].body.slots[i].signature.Some?;
      assert more[k].body.slots[i].signature.Some?;
    }
  }

  lemma SignedBySnoc(steps: seq<Step>, account: string)
    requires steps != []
    ensures var n := |steps| - 1; SignedBy(steps, account) <==>
              SignedBy(steps[..n], account) || (steps[n].Sign? && steps[n].account == account)
  {
    var n := |steps| - 1;
    if SignedBy(steps[..n], account) {
      var j :| 0 <= j < n && steps[..n][j].Sign? && steps[..n][j].account == account;
      assert steps[j].Sign? && steps[j].account == account;
    }
    if SignedBy(steps, account) && !(steps[n].Sign? && steps[n].account == account) {
      var j :| 0 <= j < |steps| && steps[j].Sign? && steps[j].account == account;
      assert steps[..n][j] == steps[j];
    }
  }

  /** Combining all drafts around gives a fully signed one exactly when the signer of every slot has signed. */
  lemma FullySignedExactly(prepared: Draft, steps: seq<Step>, cx: Context)
    requires Kin(prepared, prepared, cx) && Unsigned(prepared) && SixtyFiveBytes(cx)
             && Around(prepared, steps, cx).Some?
    ensures var all := Around(prepared, steps, cx).value;
            && Combinable(all, cx) && Combined(all, cx).body.txId == prepared.body.txId
            && Combined(all, cx).body.planArtifactId == prepared.body.planArtifactId
            && |Combined(all, cx).body.slots| == |prepared.body.slots|
            && ((forall i :: 0 <= i < |prepared.body.slots| ==> Combined(all, cx).body.slots[i].signature.Some?)
                <==> (forall i :: 0 <= i < |prepared.body.slots| ==> SignedBy(steps, prepared.body.slots[i].signer)))
  {
    hide Kin, Around, SixtyFiveBytes, SignedBy, Combinable, SomeSigned, Joined;
    var all := Around(prepared, steps, cx).value;
    AroundIsNotEmpty(prepared, steps, cx);
    forall k | 0 <= k < |all| ensures Kin(all[k], prepared, cx) { EveryDraftIsKin(prepared, steps, cx, k); }
    CombiningKeepsKin(all, prepared, cx);
    KinSays(Combined(all, cx), prepared, cx);
    forall i | 0 <= i < |prepared.body.slots|
      ensures Combined(all, cx).body.slots[i].signature.Some? <==> SignedBy(steps, prepared.body.slots[i].signer)
    {
      SignedExactlyBySigners(prepared, steps, cx, i);
      KinSays(all[0], prepared, cx);
      CombinedSigned(all, cx, i);
      SomeSignedIs(all, i);
    }
  }

  lemma SomeSignedIs(all: seq<Draft>, i: nat)
    requires forall k :: 0 <= k < |all| ==> i < |all[k].body.slots|
    ensures SomeSigned(all, i) <==> exists k :: 0 <= k < |all| && all[k].body.slots[i].signature.Some?
  {
  }

  lemma KinSays(d: Draft, prepared: Draft, cx: Context)
    requires Kin(d, prepared, cx)
    ensures d.body.txId == prepared.body.txId && d.body.planArtifactId == prepared.body.planArtifactId
            && |d.body.slots| == |prepared.body.slots|
  {
    assert |Shape(d.body.slots)| == |Shape(prepared.body.slots)|;
  }

  lemma {:induction false} AroundIsNotEmpty(prepared: Draft, steps: seq<Step>, cx: Context)
    requires Around(prepared, steps, cx).Some?
    ensures Around(prepared, steps, cx).value != []
  {
  }

  // ----- finalizing

  /** A slot as the plan and the node give it, and the keys the contract checks it against. */
  datatype Expected = Expected(input: nat, kind: Kind, argIndex: Option<nat>, param: Option<string>, signer: string,
                               allowed: seq<string>)

  predicate Fits(s: Slot, e: Expected)
  {
    && s.input == e.input && s.kind == e.kind && s.argIndex == e.argIndex && s.param == e.param && s.signer == e.signer
    && s.publicKey in e.allowed
  }

  predicate FitsAll(slots: seq<Slot>, expected: seq<Expected>)
  {
    |slots| == |expected| && forall i :: 0 <= i < |slots| ==> Fits(slots[i], expected[i])
  }

  predicate FullySigned(slots: seq<Slot>)
  {
    forall i :: 0 <= i < |slots| ==> slots[i].signature.Some?
  }

  datatype FinalFault = NotADraft | Missing | SlotsDiffer | BadSignature

  /** What finalizeV1Draft asks of a draft before it builds the unlocks. */
  method CheckFinal(d: Draft, expected: seq<Expected>, cx: Context) returns (fault: Option<FinalFault>)
    ensures fault.None? <==>
              CheckDraft(d, cx) && FullySigned(d.body.slots) && FitsAll(d.body.slots, expected)
                && AllValid(d.body.slots, cx)
  {
    var slots := d.body.slots;
    if !CheckDraft(d, cx) { return Some(NotADraft); }
    for i := 0 to |slots|
      invariant forall j :: 0 <= j < i ==> slots[j].signature.Some?
    {
      if slots[i].signature.None? { return Some(Missing); }
    }
    if |expected| != |slots| { return Some(SlotsDiffer); }
    for i := 0 to |slots|
      invariant forall j :: 0 <= j < i ==> Fits(slots[j], expected[j])
    {
      if !Fits(slots[i], expected[i]) { return Some(SlotsDiffer); }
    }
    var ok := VerifySlotSignatures(slots, cx);
    if !ok { return Some(BadSignature); }
    return None;
  }

  lemma KinFits(d: Draft, prepared: Draft, cx: Context, expected: seq<Expected>)
    requires Kin(d, prepared, cx) && FitsAll(prepared.body.slots, expected)
    ensures FitsAll(d.body.slots, expected)
  {
    KinSays(d, prepared, cx);
    forall i | 0 <= i < |d.body.slots| ensures Fits(d.body.slots[i], expected[i]) {
      KinSlot(d, prepared, cx, i);
    }
  }

  /**
   * When the draft was prepared with the slots the plan and the node give, then after any run of signing and combining
   * the combination of all drafts can be finalized exactly when the signer of every slot has signed.
   */
  lemma FinalizesExactly(prepared: Draft, steps: seq<Step>, cx: Context, expected: seq<Expected>)
    requires Kin(prepared, prepared, cx) && Unsigned(prepared) && SixtyFiveBytes(cx)
             && Around(prepared, steps, cx).Some?
    requires FitsAll(prepared.body.slots, expected)
    ensures var all := Around(prepared, steps, cx).value;
            && Combinable(all, cx)
            && var d := Combined(all, cx);
            (CheckDraft(d, cx) && FullySigned(d.body.slots) && FitsAll(d.body.slots, expected)
             && AllValid(d.body.slots, cx))
            <==> (forall i :: 0 <= i < |prepared.body.slots| ==> SignedBy(steps, prepared.body.slots[i].signer))
  {
    hide Kin, Around, SixtyFiveBytes, SignedBy, Combinable, Joined, CheckDraft, AllValid, FitsAll;
    var all := Around(prepared, steps, cx).value;
    FullySignedExactly(prepared, steps, cx);
    AroundIsNotEmpty(prepared, steps, cx);
    forall k | 0 <= k < |all| ensures Kin(all[k], prepared, cx) { EveryDraftIsKin(prepared, steps, cx, k); }
    CombiningKeepsKin(all, prepared, cx);
    KinFits(Combined(all, cx), prepared, cx, expected);
    KinChecks(Combined(all, cx), prepared, cx);
  }

  lemma KinChecks(d: Draft, prepared: Draft, cx: Context)
    requires Kin(d, prepared, cx)
    ensures CheckDraft(d, cx) && AllValid(d.body.slots, cx)
  {
  }

  /**
   * Nothing in a draft is taken on trust. Whoever sealed it, a draft that passes the checks of finalizing has exactly
   * the slots the plan and the node give, in order and in place, and each carries a signature of that input, over this
   * transaction, by a key the slot is checked against.
   */
  lemma FinalIsSigned(d: Draft, expected: seq<Expected>, cx: Context, i: nat)
    requires CheckDraft(d, cx) && FullySigned(d.body.slots) && FitsAll(d.body.slots, expected)
             && AllValid(d.body.slots, cx)
    ensures |d.body.slots| == |expected|
    ensures i < |expected| ==>
              var s, e := d.body.slots[i], expected[i];
              && s.signature.Some? && s.publicKey in e.allowed && cx.valid(e.input, s.publicKey, s.signature.value)
              && s.kind == e.kind && s.argIndex == e.argIndex && s.param == e.param && s.signer == e.signer
  {
    if i < |expected| { assert Fits(d.body.slots[i], expected[i]) && SlotValid(d.body.slots[i], cx); }
  }
}
