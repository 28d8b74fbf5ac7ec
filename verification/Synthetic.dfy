/**
 * The simulator's authorizations: what an account signs is the identity of one plan, and the check that decides whether
 * a signed artifact authorizes a plan.
 */
module Synthetic {
  import opened Common
  import opened Json
  import Canonical
  import opened HashVersions
  import opened Migration
  import opened Identity
  import opened Lineage
  import Resolver
  import LineageChain
  import LineageProducer

  const FORMAT: string := "synthetic-authorization"
  const NUL: string := "\0"

  datatype Code = LegacyUnbound | AuthorizationInvalid | PlanMismatch | SignerMismatch | PlanNotFull | PlanUnidentified

  datatype Authorized = Authorized(planArtifactId: string, txId: string, signers: seq<string>)

  function TxIdFor(planArtifactId: string): (r: string)
  {
    "synthetic-" + planArtifactId
  }

  /** authorizablePlanIdentity: sealed under the current version and hashing to what it declares. */
  function PlanIdentity(p: Value, pf: Platform): (r: Option<string>)
    ensures r.Some? ==> Member(p, "contentHash") == Str(r.value) && Hex64(r.value) && r.value == ContentHash(p, 5, pf)
  {
    var h := Member(p, "contentHash");
    if !h.Str? || !Hex64(h.s) || Member(p, "hashVersion") != Num("5") || ContentHash(p, 5, pf) != h.s then None
      else Some(h.s)
  }

  function AddressIn(v: Value, field: string): (r: Value)
  {
    Member(Member(v, field), "address")
  }

  // ----- lists of signers

  function InsertOnce(x: string, xs: seq<string>): (r: seq<string>)
  {
    if xs == [] || KeyLess(x, xs[0]) then [x] + xs
    else if x == xs[0] then xs
    else [xs[0]] + InsertOnce(x, xs[1..])
  }

  function SortedUnique(xs: seq<string>): (r: seq<string>)
  {
    if xs == [] then [] else InsertOnce(xs[0], SortedUnique(xs[1..]))
  }

  function Joined(xs: seq<string>): (r: string)
  {
    if xs == [] then "" else if |xs| == 1 then xs[0] else xs[0] + NUL + Joined(xs[1..])
  }

  predicate SameList(a: seq<string>, b: seq<string>)
  {
    Joined(a) == Joined(b)
  }

  lemma {:induction false} InsertOnceMembers(x: string, xs: seq<string>, y: string)
    ensures y in InsertOnce(x, xs) <==> y == x || y in xs
  {
    if xs == [] || KeyLess(x, xs[0]) {
    } else if x != xs[0] {
      InsertOnceMembers(x, xs[1..], y);
      assert xs == [xs[0]] + xs[1..];
    }
  }

  lemma {:induction false} SortedUniqueMembers(xs: seq<string>, y: string)
    ensures y in SortedUnique(xs) <==> y in xs
  {
    if xs != [] {
      SortedUniqueMembers(xs[1..], y);
      InsertOnceMembers(xs[0], SortedUnique(xs[1..]), y);
      assert xs == [xs[0]] + xs[1..];
    }
  }

  ghost predicate Ascending(xs: seq<string>)
  {
    forall i, j :: 0 <= i < j < |xs| ==> KeyLess(xs[i], xs[j])
  }

  lemma {:induction false} InsertOnceAscends(x: string, xs: seq<string>)
    requires Ascending(xs)
    ensures Ascending(InsertOnce(x, xs))
  {
    if xs == [] {
    } else if KeyLess(x, xs[0]) {
      forall j | 0 <= j < |xs| ensures KeyLess(x, xs[j]) {
        if j > 0 { KeyLessTransitive(x, xs[0], xs[j]); }
      }
    } else if x != xs[0] {
      KeyLessTotal(x, xs[0]);
      InsertOnceAscends(x, xs[1..]);
      var rest := InsertOnce(x, xs[1..]);
      forall j | 0 <= j < |rest| ensures KeyLess(xs[0], rest[j]) {
        InsertOnceMembers(x, xs[1..], rest[j]);
        assert rest[j] in rest;
      }
    }
  }

  lemma {:induction false} SortedUniqueAscends(xs: seq<string>)
    ensures Ascending(SortedUnique(xs))
  {
    if xs != [] {
      SortedUniqueAscends(xs[1..]);
      InsertOnceAscends(xs[0], SortedUnique(xs[1..]));
    }
  }

  predicate NulFree(s: string)
  {
    forall i :: 0 <= i < |s| ==> s[i] != NUL[0]
  }

  /** Addresses hold no NUL, so the joined texts are equal only for equal lists. */
  lemma {:induction false} JoinedInjective(a: seq<string>, b: seq<string>)
    requires (forall x :: x in a ==> NulFree(x)) && (forall x :: x in b ==> NulFree(x))
    requires a != [] && b != [] && Joined(a) == Joined(b)
    ensures a == b
  {
    var ra, rb := if |a| == 1 then "" else NUL + Joined(a[1..]), if |b| == 1 then "" else NUL + Joined(b[1..]);
    assert Joined(a) == a[0] + ra && Joined(b) == b[0] + rb;
    HeadsEqual(a[0], ra, b[0], rb);
    if |a| > 1 {
      assert ra[1..] == Joined(a[1..]) && rb[1..] == Joined(b[1..]);
      JoinedInjective(a[1..], b[1..]);
      assert a == [a[0]] + a[1..] && b == [b[0]] + b[1..];
    }
  }

  /** A text followed by a separator reaches as far as one without separators. */
  lemma NotShorter(x: string, rx: string, y: string, ry: string)
    requires NulFree(y) && x + rx == y + ry && (rx == [] || rx[0] == NUL[0])
    ensures |x| >= |y|
  {
    var w := y + ry;
    assert |x| + |rx| == |y| + |ry|;
    assert forall i :: 0 <= i < |y| ==> w[i] == y[i];
    if rx != [] { assert w[|x|] == (x + rx)[|x|] == NUL[0]; }
  }

  lemma HeadsEqual(x: string, rx: string, y: string, ry: string)
    requires NulFree(x) && NulFree(y) && x + rx == y + ry
    requires (rx == [] || rx[0] == NUL[0]) && (ry == [] || ry[0] == NUL[0])
    ensures x == y && rx == ry
  {
    NotShorter(x, rx, y, ry);
    NotShorter(y, ry, x, rx);
    assert x == (x + rx)[..|x|] && y == (y + ry)[..|y|];
    assert rx == (x + rx)[|x|..] && ry == (y + ry)[|y|..];
  }

  // ----- authorizing

  /** The members of a signed artifact that the check reads; `rest` holds the others (dates, versions, labels). */
  function SignedFields(plan: Value, id: string, signer: string, rest: seq<Pair<Value>>): (fields: seq<Pair<Value>>)
  {
    [Pair("schema", Str(SIGNED_TX)), Pair("hashVersion", Num("5")), Pair("status", Str("signed")),
     Pair("networkId", Member(plan, "networkId")), Pair("mode", Member(plan, "mode")),
     Pair("from", Obj([Pair("address", AddressIn(plan, "from"))])),
       Pair("to", Obj([Pair("address", AddressIn(plan, "to"))])),
     Pair("amountSompi", Member(plan, "amountSompi")), Pair("txId", Str(TxIdFor(id))),
     Pair("authorization", AuthorizationOf(id, signer)), Pair("signedTransaction", TransactionOf(id))] + rest
  }

  function AuthorizationOf(id: string, signer: string): (v: Value)
  {
    Obj([Pair("kind", Str("synthetic")), Pair("planArtifactId", Str(id)), Pair("signers", Arr([Str(signer)]))])
  }

  function TransactionOf(id: string): (v: Value)
  {
    Obj([Pair("format", Str(FORMAT)), Pair("payload", Str(id))])
  }

  /**
   * createSimulatedSignedTxArtifact: only the owner of the plan's `from` authorizes it; the artifact is the plan's
   * child.
   */
  function CreateSigned(plan: Value, signer: string, rest: seq<Pair<Value>>, pf: Platform,
                        ar: Arithmetic): (r: Result<Value, Code>)
  {
    match PlanIdentity(plan, pf)
    case None => Err(PlanUnidentified)
    case Some(id) =>
      if signer == "" || AddressIn(plan, "from") != Str(signer) then Err(SignerMismatch)
      else Ok(LineageProducer.SealChild(SignedFields(plan, id, signer, rest), plan, pf, ar))
  }

  // ----- the check

  predicate AllTexts(items: seq<Value>)
  {
    forall i :: 0 <= i < |items| ==> items[i].Str? && items[i].s != ""
  }

  function Texts(items: seq<Value>): (r: seq<string>)
    requires AllTexts(items)
    ensures |r| == |items| && forall i :: 0 <= i < |items| ==> r[i] == items[i].s
  {
    seq(|items|, i requires 0 <= i < |items| => items[i].s)
  }

  predicate WellFormedAuthorization(a: Value)
  {
    && a.Obj? && Member(a, "kind") == Str("synthetic")
    && Member(a, "planArtifactId").Str? && Hex64(Member(a, "planArtifactId").s)
    && Member(a, "signers").Arr? && Member(a, "signers").items != [] && AllTexts(Member(a, "signers").items)
  }

  /** The artifact's own coherence: its status, and what a complete one names. */
  function CheckStatus(s: Value, id: string): (r: Option<Code>)
  {
    var tx := Member(s, "signedTransaction");
    if Member(s, "status") == Str("signed") then
      if Member(tx, "format") != Str(FORMAT) then Some(AuthorizationInvalid)
      else if Member(tx, "payload") != Str(id) || Member(s, "txId") != Str(TxIdFor(id)) then Some(PlanMismatch)
      else None
    else if Member(s, "status") == Str("partially_signed") then
      if !tx.Undefined? || !Member(s, "txId").Undefined? then Some(AuthorizationInvalid) else None
    else Some(AuthorizationInvalid)
  }

  function ItemsOf(v: Value): (r: seq<Value>)
  {
    if v.Arr? then v.items else []
  }

  /** `String(value)`, for the values a signer or an amount may hold. */
  function TextOf(v: Value): (r: string)
  {
    match v
    case Str(s) => s
    case Num(t) => t
    case BigInt(n) => IntText(n)
    case Bool(b) => if b then "true" else "false"
    case Null => "null"
    case Undefined => "undefined"
    case NaN => "NaN"
    case Infinite(negative) => if negative then "-Infinity" else "Infinity"
    case _ => "[object Object]"
  }

  function SignersOf(es: seq<Value>): (r: seq<string>)
    ensures |r| == |es| && forall i :: 0 <= i < |es| ==> r[i] == TextOf(Member(es[i], "signer"))
  {
    seq(|es|, i requires 0 <= i < |es| => TextOf(Member(es[i], "signer")))
  }

  /** `tooFew(n, t)` is JavaScript's `n < Number(t)`. */
  function CheckSigners(s: Value, id: string, signers: seq<string>, tooFew: (nat, Value) -> bool): (r: Option<Code>)
  {
    var m := Member(s, "multisig");
    if m.Undefined? then
      if ParentId(LineageOf(s)) != Str(id) then Some(PlanMismatch)
      else if |signers| != 1 || AddressIn(s, "from") != Str(signers[0]) then Some(SignerMismatch)
      else None
    else
      var es, required := ItemsOf(Member(m, "signatures")), ItemsOf(Member(m, "requiredSigners"));
      var complete := Member(s, "status") == Str("signed");
      if exists i ::
           0 <= i < |es| && (Member(es[i], "kind") != Str("synthetic") || !Member(es[i], "signature").Undefined?) then
        Some(AuthorizationInvalid)
      else if !SameList(SortedUnique(SignersOf(es)), signers) then Some(SignerMismatch)
      else if exists i :: 0 <= i < |signers| && Str(signers[i]) !in required then Some(SignerMismatch)
      else if complete && tooFew(|signers|, Member(m, "threshold")) then Some(AuthorizationInvalid)
      else if complete && !Includes(signers, AddressIn(s, "from")) then Some(SignerMismatch)
      else None
  }

  predicate Includes(signers: seq<string>, v: Value)
  {
    v.Str? && v.s in signers
  }

  function CheckPlan(s: Value, id: string, signers: seq<string>, p: Value, pf: Platform): (r: Option<Code>)
  {
    if Member(p, "contentHash") != Str(id) then Some(PlanMismatch)
    else if PlanIdentity(p, pf).None? then Some(PlanNotFull)
    else if !Includes(signers, AddressIn(p, "from")) then Some(SignerMismatch)
    else if !SameTransfer(s, p) then Some(PlanMismatch)
    else if !Member(s, "multisig").Undefined? && !StrictEqual(RootId(LineageOf(s)), RootOrHash(p)) then
      Some(PlanMismatch)
    else None
  }

  /** The artifact describes the plan's transfer. */
  predicate SameTransfer(s: Value, p: Value)
  {
    && StrictEqual(AddressIn(s, "from"), AddressIn(p, "from")) && StrictEqual(AddressIn(s, "to"), AddressIn(p, "to"))
    && TextOf(Member(s, "amountSompi")) == TextOf(Member(p, "amountSompi"))
    && StrictEqual(Member(s, "networkId"), Member(p, "networkId"))
  }

  function RootOrHash(p: Value): (r: Value)
  {
    if Nullish(RootId(LineageOf(p))) then Member(p, "contentHash") else RootId(LineageOf(p))
  }

  /** checkSyntheticAuthorization; an undefined plan is none given. */
  function CheckAuthorization(s: Value, plan: Value, pf: Platform,
                              tooFew: (nat, Value) -> bool): (r: Result<Authorized, Code>)
  {
    var a := Member(s, "authorization");
    if Nullish(a) then
      Err(if Member(Member(s, "signedTransaction"), "format") == Str(FORMAT) then AuthorizationInvalid
          else LegacyUnbound)
    else if !WellFormedAuthorization(a) then Err(AuthorizationInvalid)
    else
      var id, signers := Member(a, "planArtifactId").s, Texts(Member(a, "signers").items);
      if !SameList(signers, SortedUnique(signers)) then Err(AuthorizationInvalid)
      else if CheckStatus(s, id).Some? then Err(CheckStatus(s, id).value)
      else if CheckSigners(s, id, signers, tooFew).Some? then Err(CheckSigners(s, id, signers, tooFew).value)
      else if !plan.Undefined? && CheckPlan(s, id, signers, plan, pf).Some? then
        Err(CheckPlan(s, id, signers, plan, pf).value)
      else Ok(Authorized(id, TxIdFor(id), signers))
  }

  // ----- what is created is authorized

  const READ: seq<string> :=
    ["schema", "hashVersion", "status", "networkId", "mode", "from", "to", "amountSompi", "txId", "authorization",
     "signedTransaction"]

  /** The other members of a signed artifact: none the check reads, and none that sealing stamps. */
  ghost predicate OtherMembers(rest: seq<Pair<Value>>)
  {
    && DistinctKeys(rest) && (forall k :: k in READ ==> Lookup(rest, k).None?)
    && (forall k :: k in ["multisig", "lineage", "planId", "signedId", "contentHash", "artifactId"] ==>
          Lookup(rest, k).None?)
  }

  lemma ReadDistinct(i: nat, j: nat)
    requires i < j < 11
    ensures |READ| == 11 && READ[i] != READ[j]
  {
  }

  lemma ReadIsNoStamp(i: nat)
    requires i < 11
    ensures |READ| == 11 && READ[i] !in LineageProducer.STAMPS
  {
  }

  lemma FieldKeys(plan: Value, id: string, signer: string, rest: seq<Pair<Value>>, i: nat)
    requires i < 11
    ensures |SignedFields(plan, id, signer, rest)| == 11 + |rest| && |READ| == 11
            && SignedFields(plan, id, signer, rest)[i].key == READ[i]
  {
  }

  lemma FieldsAfter(plan: Value, id: string, signer: string, rest: seq<Pair<Value>>)
    ensures |SignedFields(plan, id, signer, rest)| == 11 + |rest| && SignedFields(plan, id, signer, rest)[11..] == rest
  {
  }

  lemma FieldsDistinct(plan: Value, id: string, signer: string, rest: seq<Pair<Value>>)
    requires OtherMembers(rest)
    ensures DistinctKeys(SignedFields(plan, id, signer, rest))
  {
    hide SignedFields, Lookup, READ;
    var fs := SignedFields(plan, id, signer, rest);
    FieldsAfter(plan, id, signer, rest);
    forall i, j | 0 <= i < j < |fs| ensures fs[i].key != fs[j].key {
      if i < 11 { FieldKeys(plan, id, signer, rest, i); }
      if j < 11 {
        FieldKeys(plan, id, signer, rest, j);
        ReadDistinct(i, j);
      } else {
        assert fs[j] == rest[j - 11];
        if i >= 11 { assert fs[i] == rest[i - 11]; } else { LookupAt(rest, j - 11); }
      }
    }
  }

  lemma FieldsLookup(plan: Value, id: string, signer: string, rest: seq<Pair<Value>>, i: nat)
    requires OtherMembers(rest) && i < 11
    ensures |READ| == 11 && |SignedFields(plan, id, signer, rest)| >= 11
    ensures Lookup(SignedFields(plan, id, signer, rest), READ[i]) == Some(SignedFields(plan, id, signer, rest)[i].val)
  {
    hide SignedFields, Lookup, READ;
    FieldsDistinct(plan, id, signer, rest);
    FieldKeys(plan, id, signer, rest, i);
    LookupAt(SignedFields(plan, id, signer, rest), i);
  }

  lemma {:induction false} LookupAppend(a: seq<Pair<Value>>, b: seq<Pair<Value>>, k: string)
    requires forall i :: 0 <= i < |a| ==> a[i].key != k
    ensures Lookup(a + b, k) == Lookup(b, k)
  {
    if a == [] { assert a + b == b; } else { assert (a + b)[1..] == a[1..] + b; LookupAppend(a[1..], b, k); }
  }

  predicate Elsewhere(k: string)
  {
    k == "multisig" || k == "planId" || k == "signedId" || k == "contentHash" || k == "artifactId"
  }

  lemma ElsewhereIsNotRead(k: string, i: nat)
    requires Elsewhere(k) && i < 11
    ensures |READ| == 11 && READ[i] != k
  {
  }

  lemma FieldsLack(plan: Value, id: string, signer: string, rest: seq<Pair<Value>>, k: string)
    requires OtherMembers(rest) && Elsewhere(k)
    ensures Lookup(SignedFields(plan, id, signer, rest), k).None?
  {
    hide SignedFields, READ;
    var fs := SignedFields(plan, id, signer, rest);
    FieldsAfter(plan, id, signer, rest);
    assert fs == fs[..11] + rest;
    forall i | 0 <= i < 11 ensures fs[..11][i].key != k {
      FieldKeys(plan, id, signer, rest, i);
      ElsewhereIsNotRead(k, i);
    }
    LookupAppend(fs[..11], rest, k);
  }

  /** Sealing changes no member but the stamps, and sets the lineage to the transition below the parent. */
  lemma SealedChildMembers(fields: seq<Pair<Value>>, parent: Value, pf: Platform, ar: Arithmetic, k: string)
    requires DistinctKeys(fields) && Lookup(fields, "planId").None? && Lookup(fields, "signedId").None?
    ensures var c := LineageProducer.SealChild(fields, parent, pf, ar);
            && c.Obj? && (k !in LineageProducer.STAMPS ==> Lookup(c.fields, k) == Lookup(fields, k))
            && Lookup(c.fields, "lineage")
                 == Some(CreateLineageTransition(parent, LineageProducer.SealHash(fields, parent, pf, ar), ar))
  {
    hide PutKey, Lookup, Sealed, CreateLineageTransition, ContentHash, LineageProducer.FourPuts,
         LineageProducer.LabelOf, LineageProducer.STAMPS;
    var f0, hash := LineageProducer.Stamped(fields, parent, ar), LineageProducer.SealHash(fields, parent, pf, ar);
    PutKeyLookup(fields, "lineage", CreateLineageTransition(parent, "", ar));
    LineageProducer.StampsDiffer();
    var schema, block := Member(Obj(f0), "schema"), CreateLineageTransition(parent, hash, ar);
    LineageProducer.SealedIsFourPuts(f0, block, hash);
    LineageProducer.FourPutsLookup(f0, LineageProducer.STAMPS, Str(hash), block,
                                   LineageProducer.LabelOf(schema, TX_PLAN_SCHEMA, "plan-", hash),
                                   LineageProducer.LabelOf(schema, SIGNED_TX_SCHEMA, "signed-", hash));
  }

  lemma TransitionNamesParent(plan: Value, own: string, ar: Arithmetic, id: string)
    requires Member(plan, "contentHash") == Str(id) && id != ""
    ensures ParentId(CreateLineageTransition(plan, own, ar)) == Str(id)
  {
    hide Lookup, LineId, RootId, Sequence, Or;
    var fs := CreateLineageTransition(plan, own, ar).fields;
    LineageProducer.BlockNames();
    assert DistinctKeys(fs);
    LookupAt(fs, 2);
    NamedByHash(plan, id);
  }

  lemma NamedByHash(plan: Value, id: string)
    requires Member(plan, "contentHash") == Str(id) && id != ""
    ensures ParentName(plan) == Str(id)
  {
    hide Member;
  }

  /** What the check reads of a created artifact. */
  ghost predicate ReadsAs(s: Value, plan: Value, id: string, signer: string)
  {
    && s.Obj?
    && Member(s, "status") == Str("signed") && Member(s, "networkId") == Member(plan, "networkId")
    && AddressIn(s, "from") == AddressIn(plan, "from") && AddressIn(s, "to") == AddressIn(plan, "to")
    && Member(s, "amountSompi") == Member(plan, "amountSompi") && Member(s, "txId") == Str(TxIdFor(id))
    && Member(s, "authorization") == AuthorizationOf(id, signer) && Member(s, "signedTransaction") == TransactionOf(id)
    && Member(s, "multisig") == Undefined && ParentId(LineageOf(s)) == Str(id)
  }

  lemma ReadNames()
    ensures |READ| == 11 && READ[2] == "status" && READ[3] == "networkId" && READ[5] == "from" && READ[6] == "to"
    ensures READ[7] == "amountSompi" && READ[8] == "txId" && READ[9] == "authorization"
            && READ[10] == "signedTransaction"
  {
  }

  lemma FieldValues(plan: Value, id: string, signer: string, rest: seq<Pair<Value>>)
    ensures var fs := SignedFields(plan, id, signer, rest);
            && |fs| >= 11 && fs[2].val == Str("signed") && fs[3].val == Member(plan, "networkId")
            && fs[5].val == Obj([Pair("address", AddressIn(plan, "from"))])
            && fs[6].val == Obj([Pair("address", AddressIn(plan, "to"))])
            && fs[7].val == Member(plan, "amountSompi") && fs[8].val == Str(TxIdFor(id))
            && fs[9].val == AuthorizationOf(id, signer) && fs[10].val == TransactionOf(id)
  {
    hide Member, AuthorizationOf, TransactionOf, TxIdFor, AddressIn;
  }

  lemma AddressAlone(x: Value)
    ensures Member(Obj([Pair("address", x)]), "address") == x
  {
  }

  lemma CreatedReads(plan: Value, signer: string, rest: seq<Pair<Value>>, pf: Platform, ar: Arithmetic)
    requires CreateSigned(plan, signer, rest, pf, ar).Ok? && OtherMembers(rest)
    ensures PlanIdentity(plan, pf).Some? && AddressIn(plan, "from") == Str(signer) && signer != ""
    ensures ReadsAs(CreateSigned(plan, signer, rest, pf, ar).value, plan, PlanIdentity(plan, pf).value, signer)
  {
    hide PlanIdentity, SignedFields, OtherMembers, LineageProducer.SealChild, AuthorizationOf, TransactionOf, TxIdFor,
         ContentHash, Hex64, READ, Member;
    var id := PlanIdentity(plan, pf).value;
    var fs := SignedFields(plan, id, signer, rest);
    ReadNames();
    FieldValues(plan, id, signer, rest);
    forall i | 0 <= i < 11 ensures Member(LineageProducer.SealChild(fs, plan, pf, ar), READ[i]) == fs[i].val {
      CreatedMember(plan, id, signer, rest, pf, ar, i);
    }
    HexNotEmpty(id);
    CreatedElsewhere(plan, id, signer, rest, pf, ar);
    AddressAlone(AddressIn(plan, "from"));
    AddressAlone(AddressIn(plan, "to"));
  }

  lemma CreatedMember(plan: Value, id: string, signer: string, rest: seq<Pair<Value>>, pf: Platform, ar: Arithmetic,
                      i: nat)
    requires OtherMembers(rest) && i < 11
    ensures |READ| == 11 && |SignedFields(plan, id, signer, rest)| >= 11
    ensures Member(LineageProducer.SealChild(SignedFields(plan, id, signer, rest), plan, pf, ar), READ[i])
            == SignedFields(plan, id, signer, rest)[i].val
  {
    hide SignedFields, Lookup, READ, OtherMembers, LineageProducer.SealChild, LineageProducer.STAMPS,
         CreateLineageTransition;
    var fs := SignedFields(plan, id, signer, rest);
    FieldsDistinct(plan, id, signer, rest);
    FieldsLack(plan, id, signer, rest, "planId");
    FieldsLack(plan, id, signer, rest, "signedId");
    FieldsLookup(plan, id, signer, rest, i);
    ReadIsNoStamp(i);
    SealedChildMembers(fs, plan, pf, ar, READ[i]);
  }

  lemma CreatedElsewhere(plan: Value, id: string, signer: string, rest: seq<Pair<Value>>, pf: Platform, ar: Arithmetic)
    requires OtherMembers(rest) && Member(plan, "contentHash") == Str(id) && id != ""
    ensures var s := LineageProducer.SealChild(SignedFields(plan, id, signer, rest), plan, pf, ar);
            s.Obj? && Member(s, "multisig") == Undefined && ParentId(LineageOf(s)) == Str(id)
  {
    hide SignedFields, Lookup, OtherMembers, LineageProducer.SealChild, LineageProducer.STAMPS,
         LineageProducer.SealHash, CreateLineageTransition;
    var fs := SignedFields(plan, id, signer, rest);
    FieldsDistinct(plan, id, signer, rest);
    FieldsLack(plan, id, signer, rest, "planId");
    FieldsLack(plan, id, signer, rest, "signedId");
    FieldsLack(plan, id, signer, rest, "multisig");
    MultisigIsNoStamp();
    SealedChildMembers(fs, plan, pf, ar, "multisig");
    TransitionNamesParent(plan, LineageProducer.SealHash(fs, plan, pf, ar), ar, id);
  }

  lemma HexNotEmpty(s: string)
    requires Hex64(s)
    ensures s != ""
  {
  }

  lemma MultisigIsNoStamp()
    ensures "multisig" !in LineageProducer.STAMPS
  {
  }

  lemma AuthorizationReads(id: string, signer: string)
    requires Hex64(id) && signer != ""
    ensures WellFormedAuthorization(AuthorizationOf(id, signer))
            && Member(AuthorizationOf(id, signer), "planArtifactId") == Str(id)
    ensures Texts(Member(AuthorizationOf(id, signer), "signers").items) == [signer]
    ensures Member(TransactionOf(id), "format") == Str(FORMAT) && Member(TransactionOf(id), "payload") == Str(id)
  {
    hide Lookup, Hex64;
    var a, t := AuthorizationOf(id, signer).fields, TransactionOf(id).fields;
    AuthorizationKeys();
    assert DistinctKeys(a) && DistinctKeys(t);
    LookupAt(a, 0);
    LookupAt(a, 1);
    LookupAt(a, 2);
    LookupAt(t, 0);
    LookupAt(t, 1);
  }

  lemma AuthorizationKeys()
    ensures "kind" != "planArtifactId" && "kind" != "signers" && "planArtifactId" != "signers" && "format" != "payload"
  {
    assert |"kind"| == 4 && |"planArtifactId"| == 14 && |"signers"| == 7 && |"format"| == 6 && |"payload"| == 7;
  }

  lemma AloneIsSorted(x: string)
    ensures SortedUnique([x]) == [x]
  {
    assert [x][1..] == [];
  }

  /** A plan's transfer, as its schema types it. */
  predicate TypedTransfer(plan: Value)
  {
    AddressIn(plan, "to").Str? && Member(plan, "networkId").Str?
  }

  /**
   * What the simulator makes of a plan always passes the check of its own coherence and the check for that plan, and
   * names the plan's identity, its transaction and its owner.
   */
  lemma CreatedIsAuthorized(plan: Value, signer: string, rest: seq<Pair<Value>>, pf: Platform, ar: Arithmetic,
                            tooFew: (nat, Value) -> bool)
    requires CreateSigned(plan, signer, rest, pf, ar).Ok? && OtherMembers(rest) && TypedTransfer(plan)
    ensures var s, id := CreateSigned(plan, signer, rest, pf, ar).value, ContentHash(plan, 5, pf);
            && CheckAuthorization(s, plan, pf, tooFew) == Ok(Authorized(id, TxIdFor(id), [signer]))
            && CheckAuthorization(s, Undefined, pf, tooFew) == Ok(Authorized(id, TxIdFor(id), [signer]))
  {
    hide CreateSigned, OtherMembers, Lookup, Member, Hex64, TxIdFor, AuthorizationOf, TransactionOf, Joined,
         SortedUnique, Texts, ContentHash, WellFormedAuthorization, PlanIdentity;
    CreatedReads(plan, signer, rest, pf, ar);
    var id := PlanIdentity(plan, pf).value;
    AuthorizationReads(id, signer);
    AloneIsSorted(signer);
    AuthorizationIsThere(id, signer);
  }

  lemma AuthorizationIsThere(id: string, signer: string)
    ensures !Nullish(AuthorizationOf(id, signer))
  {
  }

  lemma AddressWellFormed(plan: Value, field: string)
    requires WellFormed(plan)
    ensures WellFormed(Obj([Pair("address", AddressIn(plan, field))]))
  {
    Canonical.MemberWellFormed(plan, field);
    Canonical.MemberWellFormed(Member(plan, field), "address");
  }

  lemma AuthorizationWellFormed(id: string, signer: string)
    ensures WellFormed(AuthorizationOf(id, signer)) && WellFormed(TransactionOf(id))
  {
    AuthorizationKeys();
    assert WellFormed(Arr([Str(signer)]));
  }

  lemma HeadWellFormed(plan: Value, id: string, signer: string, rest: seq<Pair<Value>>, i: nat)
    requires WellFormed(plan) && i < 11
    ensures |SignedFields(plan, id, signer, rest)| >= 11 && WellFormed(SignedFields(plan, id, signer, rest)[i].val)
  {
    hide AuthorizationOf, TransactionOf, TxIdFor, Member, AddressIn;
    Canonical.MemberWellFormed(plan, "networkId");
    Canonical.MemberWellFormed(plan, "mode");
    Canonical.MemberWellFormed(plan, "amountSompi");
    AddressWellFormed(plan, "from");
    AddressWellFormed(plan, "to");
    AuthorizationWellFormed(id, signer);
  }

  lemma SignedIsDraft(plan: Value, id: string, signer: string, rest: seq<Pair<Value>>)
    requires WellFormed(plan) && WellFormed(Obj(rest)) && OtherMembers(rest)
    ensures LineageProducer.Draft(SignedFields(plan, id, signer, rest))
  {
    hide SignedFields, READ, OtherMembers, Lookup;
    var fs := SignedFields(plan, id, signer, rest);
    FieldsDistinct(plan, id, signer, rest);
    FieldsAfter(plan, id, signer, rest);
    forall i | 0 <= i < |fs| ensures WellFormed(fs[i].val) {
      if i < 11 { HeadWellFormed(plan, id, signer, rest, i); } else { assert fs[i] == rest[i - 11]; }
    }
    FieldsLookup(plan, id, signer, rest, 1);
    VersionRead(plan, id, signer, rest);
    FieldsLack(plan, id, signer, rest, "planId");
    FieldsLack(plan, id, signer, rest, "signedId");
    FieldsLack(plan, id, signer, rest, "contentHash");
    FieldsLack(plan, id, signer, rest, "artifactId");
  }

  lemma VersionRead(plan: Value, id: string, signer: string, rest: seq<Pair<Value>>)
    ensures |READ| == 11 && READ[1] == "hashVersion"
    ensures |SignedFields(plan, id, signer, rest)| >= 11 && SignedFields(plan, id, signer, rest)[1].val == Num("5")
  {
  }

  /** Sealed below a sealed plan, it is a sealed member of the plan's lineage that verifies as its hash. */
  lemma CreatedVerifies(plan: Value, signer: string, rest: seq<Pair<Value>>, pf: Platform, ar: Arithmetic, id: string,
                        root: string, n: nat)
    requires CreateSigned(plan, signer, rest, pf, ar).Ok? && WellFormed(Obj(rest)) && OtherMembers(rest)
    requires LineageProducer.SealedMember(plan, id, root, n, pf) && n < LineageChain.MAX_SAFE
    requires LineageProducer.HashesAreHex(pf) && LineageChain.Exact(ar)
    ensures var s := CreateSigned(plan, signer, rest, pf, ar).value;
            CheckArtifactIdentity(s, pf).Some?
              && LineageProducer.SealedMember(s, CheckArtifactIdentity(s, pf).value, root, n + 1, pf)
  {
    hide LineageProducer.Draft, LineageProducer.HashesAreHex, LineageChain.Exact, SignedFields,
         LineageProducer.SealChild, LineageProducer.SealHash, CheckArtifactIdentity, ContentHash,
         LineageProducer.ChildBlock, LineageOf, OtherMembers;
    SignedIsDraft(plan, ContentHash(plan, 5, pf), signer, rest);
    LineageProducer.SealedBelow(SignedFields(plan, ContentHash(plan, 5, pf), signer, rest), plan, id, root, n, pf, ar);
  }

  // ----- what an authorization binds

  /** What acceptance for a plan says. */
  lemma AcceptedForPlan(s: Value, p: Value, pf: Platform, tooFew: (nat, Value) -> bool)
    requires !p.Undefined? && CheckAuthorization(s, p, pf, tooFew).Ok?
    ensures CheckAuthorization(s, Undefined, pf, tooFew) == CheckAuthorization(s, p, pf, tooFew)
    ensures var r := CheckAuthorization(s, Undefined, pf, tooFew).value;
            && PlanIdentity(p, pf) == Some(r.planArtifactId) && Includes(r.signers, AddressIn(p, "from"))
            && SameTransfer(s, p)
            && (Member(s, "status") == Str("signed") ==> Member(s, "txId") == Str(TxIdFor(r.planArtifactId)))
  {
    hide Hex64, TxIdFor, SortedUnique, Joined, Member, Texts, ContentHash, SameTransfer, Includes,
         WellFormedAuthorization, CheckSigners;
  }

  lemma FullPlanDeclares(p: Value, pf: Platform)
    requires PlanIdentity(p, pf).Some?
    ensures DeclaredVersion(p) == Some(5) && PlanIdentity(p, pf).value == ContentHash(p, 5, pf)
  {
    hide Hex64, ContentHash;
  }

  /** The authorization stands by itself, and the address it moves value from is among its signers. */
  predicate OwnerSigned(s: Value, pf: Platform, tooFew: (nat, Value) -> bool)
  {
    var r := CheckAuthorization(s, Undefined, pf, tooFew);
    r.Ok? && Includes(r.value.signers, AddressIn(s, "from"))
  }

  /**
   * An authorization binds one plan: two plans it is accepted for have, hashes not colliding on them, one version-5
   * canonical form, are the transfer the authorization describes, and have their owner among its signers.
   */
  lemma AuthorizationBindsOnePlan(s: Value, p: Value, q: Value, pf: Platform, tooFew: (nat, Value) -> bool)
    requires !p.Undefined? && !q.Undefined? && CheckAuthorization(s, p, pf, tooFew).Ok?
             && CheckAuthorization(s, q, pf, tooFew).Ok?
    requires Resolver.CollisionFree(p, q, pf)
    ensures CanonicalForm(p, 5, pf.nfc) == CanonicalForm(q, 5, pf.nfc) != None
    ensures AddressIn(p, "from") == AddressIn(q, "from") == AddressIn(s, "from")
            && AddressIn(p, "to") == AddressIn(q, "to") == AddressIn(s, "to")
    ensures Member(p, "networkId") == Member(q, "networkId")
            && TextOf(Member(p, "amountSompi")) == TextOf(Member(q, "amountSompi"))
    ensures OwnerSigned(s, pf, tooFew)
  {
    hide CheckAuthorization, PlanIdentity, ContentHash, Member, TextOf, DeclaredVersion;
    AcceptedForPlan(s, p, pf, tooFew);
    AcceptedForPlan(s, q, pf, tooFew);
    FullPlanDeclares(p, pf);
    FullPlanDeclares(q, pf);
    FormsThere(p, pf);
  }

  lemma FormsThere(p: Value, pf: Platform)
    requires DeclaredVersion(p) == Some(5)
    ensures CanonicalForm(p, 5, pf.nfc).Some?
  {
  }

  /** There is an entry, and no signer's text holds the character lists are joined with. */
  ghost predicate Separable(es: seq<Value>, signers: seq<string>)
  {
    es != [] && (forall e :: e in es ==> NulFree(TextOf(Member(e, "signer"))))
      && (forall x :: x in signers ==> NulFree(x))
  }

  /**
   * A complete one has the consent of the owner and of as many required signers as the threshold asks; they are
   * distinct, and exactly those of the entries, wherever the joined lists can be told apart.
   */
  lemma CompleteHasThreshold(s: Value, plan: Value, pf: Platform, tooFew: (nat, Value) -> bool)
    requires CheckAuthorization(s, plan, pf, tooFew).Ok? && Member(s, "status") == Str("signed")
             && !Member(s, "multisig").Undefined?
    ensures var signers, m := CheckAuthorization(s, plan, pf, tooFew).value.signers, Member(s, "multisig");
            && !tooFew(|signers|, Member(m, "threshold")) && Includes(signers, AddressIn(s, "from"))
            && (forall x :: x in signers ==> Str(x) in ItemsOf(Member(m, "requiredSigners")))
    ensures var signers, es :=
              CheckAuthorization(s, plan, pf, tooFew).value.signers,
                ItemsOf(Member(Member(s, "multisig"), "signatures"));
            Separable(es, signers) ==>
              && (forall i, j :: 0 <= i < j < |signers| ==> signers[i] != signers[j])
              && (forall x :: x in signers <==> exists e :: e in es && TextOf(Member(e, "signer")) == x)
  {
    hide CheckStatus, CheckPlan, Member, TextOf, Joined, SortedUnique, NulFree, WellFormedAuthorization, Hex64, TxIdFor;
    hide Separable;
    var signers, m := CheckAuthorization(s, plan, pf, tooFew).value.signers, Member(s, "multisig");
    var es := ItemsOf(Member(m, "signatures"));
    var named := SignersOf(es);
    assert SameList(SortedUnique(named), signers);
    if Separable(es, signers) { NamedSigners(es, named, signers); }
    forall x | x in signers ensures Str(x) in ItemsOf(Member(m, "requiredSigners")) {
      var i :| 0 <= i < |signers| && signers[i] == x;
    }
  }

  lemma NamedSigners(es: seq<Value>, named: seq<string>, signers: seq<string>)
    requires named == SignersOf(es) && SameList(SortedUnique(named), signers) && signers != []
    requires Separable(es, signers)
    ensures forall i, j :: 0 <= i < j < |signers| ==> signers[i] != signers[j]
    ensures forall x :: x in signers <==> exists e :: e in es && TextOf(Member(e, "signer")) == x
  {
    hide TextOf, Member, Joined, SortedUnique, NulFree;
    forall x ensures x in SortedUnique(named) <==> x in named { SortedUniqueMembers(named, x); }
    forall x ensures x in named <==> exists e :: e in es && TextOf(Member(e, "signer")) == x {
      if x in named {
        var i :| 0 <= i < |named| && named[i] == x;
        assert es[i] in es && TextOf(Member(es[i], "signer")) == x;
      }
      if e :| e in es && TextOf(Member(e, "signer")) == x {
        var i :| 0 <= i < |es| && es[i] == e;
        assert named[i] == x;
      }
    }
    assert named[0] in named;
    JoinedInjective(SortedUnique(named), signers);
    SortedUniqueAscends(named);
    forall i, j | 0 <= i < j < |signers| ensures signers[i] != signers[j] { KeyLessAsymmetric(signers[i], signers[j]); }
  }

  // ----- the check, as one statement

  /** The list holds exactly these texts, none of them empty. */
  predicate Lists(v: Value, texts: seq<string>)
  {
    v.Arr? && |v.items| == |texts| && forall i :: 0 <= i < |texts| ==> v.items[i] == Str(texts[i]) && texts[i] != ""
  }

  /** What a completed authorization carries of its plan, and a partial one does not. */
  predicate StatusFits(s: Value, id: string)
  {
    var tx := Member(s, "signedTransaction");
    || (&& Member(s, "status") == Str("signed") && Member(tx, "format") == Str("synthetic-authorization")
        && Member(tx, "payload") == Str(id) && Member(s, "txId") == Str("synthetic-" + id))
    || (Member(s, "status") == Str("partially_signed") && tx.Undefined? && Member(s, "txId").Undefined?)
  }

  /** By one signer, the owner, on the plan itself; or by several, all required, presented as nothing but consent. */
  predicate SignersFit(s: Value, id: string, signers: seq<string>, tooFew: (nat, Value) -> bool)
  {
    var m, complete := Member(s, "multisig"), Member(s, "status") == Str("signed");
    if m.Undefined? then ParentId(LineageOf(s)) == Str(id) && |signers| == 1 && AddressIn(s, "from") == Str(signers[0])
    else
      var es, required := ItemsOf(Member(m, "signatures")), ItemsOf(Member(m, "requiredSigners"));
      && (forall e :: e in es ==> Member(e, "kind") == Str("synthetic") && Member(e, "signature").Undefined?)
      && SameList(SortedUnique(SignersOf(es)), signers)
      && (forall x :: x in signers ==> Str(x) in required)
      && (complete ==> !tooFew(|signers|, Member(m, "threshold")) && Includes(signers, AddressIn(s, "from")))
  }

  lemma StatusExact(s: Value, id: string)
    ensures CheckStatus(s, id).None? <==> StatusFits(s, id)
  {
    hide Member;
    assert "signed" != "partially_signed" by { assert |"signed"| == 6 && |"partially_signed"| == 16; }
  }

  lemma SignersExact(s: Value, id: string, signers: seq<string>, tooFew: (nat, Value) -> bool)
    ensures CheckSigners(s, id, signers, tooFew).None? <==> SignersFit(s, id, signers, tooFew)
  {
    hide Member, SameList, SortedUnique, Includes, AddressIn, LineageOf, ParentId;
    var m := Member(s, "multisig");
    var es := ItemsOf(Member(m, "signatures"));
    assert forall i :: 0 <= i < |es| ==> es[i] in es;
    assert forall i :: 0 <= i < |signers| ==> signers[i] in signers;
  }

  lemma ListsExact(v: Value, texts: seq<string>)
    ensures v.Arr? && AllTexts(v.items) && Texts(v.items) == texts <==> Lists(v, texts)
  {
    if Lists(v, texts) { assert AllTexts(v.items) && Texts(v.items) == texts; }
  }

  /**
   * An authorization stands, alone, for a plan and signers exactly when it is a synthetic one that names the plan by
   * its hash and lists them, sorted and without repetition, with the status and the signatures that go with them.
   */
  lemma AuthorizationExact(s: Value, id: string, signers: seq<string>, pf: Platform, tooFew: (nat, Value) -> bool)
    ensures CheckAuthorization(s, Undefined, pf, tooFew) == Ok(Authorized(id, TxIdFor(id), signers)) <==>
              && var a := Member(s, "authorization");
              && a.Obj? && Member(a, "kind") == Str("synthetic") && Member(a, "planArtifactId") == Str(id) && Hex64(id)
              && signers != [] && Lists(Member(a, "signers"), signers) && SameList(signers, SortedUnique(signers))
              && StatusFits(s, id) && SignersFit(s, id, signers, tooFew)
  {
    hide Member, SameList, SortedUnique, StatusFits, SignersFit, CheckStatus, CheckSigners, CheckPlan, Hex64, TxIdFor,
         Lists, AllTexts;
    StatusExact(s, id);
    SignersExact(s, id, signers, tooFew);
    ListsExact(Member(Member(s, "authorization"), "signers"), signers);
  }

  /** A multisig authorization accepted for a plan descends from it: its root is the plan's, or the plan itself. */
  lemma MultisigDescends(s: Value, p: Value, pf: Platform, tooFew: (nat, Value) -> bool)
    requires !p.Undefined? && CheckAuthorization(s, p, pf, tooFew).Ok? && !Member(s, "multisig").Undefined?
    ensures RootId(LineageOf(s)) == (if RootId(LineageOf(p)) in [Undefined, Null] then Member(p, "contentHash")
                                     else RootId(LineageOf(p)))
  {
    hide Hex64, TxIdFor, SortedUnique, Joined, Member, Texts, ContentHash, SameTransfer, Includes,
         WellFormedAuthorization, CheckSigners, LineageOf, RootId, CheckStatus, PlanIdentity, AddressIn;
  }

  /** `String(value)` of a flag, a number or null is what JSON prints for it. */
  lemma TextOfScalars(v: Value, rules: Canonical.Rules, pos: Canonical.Pos)
    requires v.Bool? || v.Num? || v.Null?
    ensures TextOf(v) == Canonical.Serialize(v, rules, pos)
  {
  }
}
