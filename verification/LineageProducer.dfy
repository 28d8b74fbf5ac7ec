/**
 * Producers and the walker agree: artifacts stamped below one another with createLineageTransition, from a sealed
 * version-5 root, link as the verifier asks and form a complete chain.
 */
module LineageProducer {
  import opened Common
  import opened Json
  import opened Canonical
  import opened Paths
  import opened HashVersions
  import opened Migration
  import NonInterference
  import opened Identity
  import opened Resolver
  import opened Lineage
  import opened LineageChain

  /** SHA-256 is printed as 64 lower-case hexadecimal digits. */
  ghost predicate HashesAreHex(pf: Platform)
  {
    forall s: string :: Hex64(pf.sha256(s))
  }

  // ----- sealing a child

  /** The members of a version-5 artifact before it is stamped and hashed. */
  ghost predicate Draft(fields: seq<Pair<Value>>)
  {
    && WellFormed(Obj(fields)) && Member(Obj(fields), "hashVersion") == Num("5")
    && (forall k :: k in ["artifactId", "contentHash", "planId", "signedId"] ==> Lookup(fields, k).None?)
  }

  function Stamped(fields: seq<Pair<Value>>, parent: Value, ar: Arithmetic): (r: seq<Pair<Value>>)
  {
    PutKey(fields, "lineage", CreateLineageTransition(parent, "", ar))
  }

  /** What a producer makes of a draft: stamped below its parent, hashed, and told its own identity. */
  function SealChild(fields: seq<Pair<Value>>, parent: Value, pf: Platform, ar: Arithmetic): (r: Value)
  {
    var hash := ContentHash(Obj(Stamped(fields, parent, ar)), 5, pf);
    Obj(Sealed(Stamped(fields, parent, ar), CreateLineageTransition(parent, hash, ar), hash))
  }

  function SealHash(fields: seq<Pair<Value>>, parent: Value, pf: Platform, ar: Arithmetic): (r: string)
  {
    ContentHash(Obj(Stamped(fields, parent, ar)), 5, pf)
  }

  /** `object[key] = value`, when there is a value. */
  function PutMaybe(fields: seq<Pair<Value>>, k: string, x: Option<Value>): (r: seq<Pair<Value>>)
  {
    match x case Some(v) => PutKey(fields, k, v) case None => fields
  }

  lemma PutMaybeLookup(fields: seq<Pair<Value>>, k: string, x: Option<Value>)
    requires DistinctKeys(fields)
    ensures DistinctKeys(PutMaybe(fields, k, x))
    ensures forall p :: p in PutMaybe(fields, k, x) ==> p in fields || x == Some(p.val)
    ensures forall q :: Lookup(PutMaybe(fields, k, x), q) == if q == k && x.Some? then x else Lookup(fields, q)
  {
    hide PutKey, Lookup;
    if x.Some? { PutKeyLookup(fields, k, x.value); }
  }

  /** Four assignments to different keys, the last two optional. */
  function FourPuts(fields: seq<Pair<Value>>, names: seq<string>, a: Value, b: Value, c: Option<Value>,
                    d: Option<Value>): (r: seq<Pair<Value>>)
    requires |names| == 4
  {
    PutMaybe(PutMaybe(PutMaybe(PutMaybe(fields, names[0], Some(a)), names[1], Some(b)), names[2], c), names[3], d)
  }

  lemma FourPutsLookup(fields: seq<Pair<Value>>, names: seq<string>, a: Value, b: Value, c: Option<Value>,
                       d: Option<Value>)
    requires DistinctKeys(fields) && |names| == 4 && forall i, j :: 0 <= i < j < 4 ==> names[i] != names[j]
    requires Lookup(fields, names[2]).None? && Lookup(fields, names[3]).None?
    ensures var r := FourPuts(fields, names, a, b, c, d);
            && DistinctKeys(r) && (forall p :: p in r ==>
                                     p in fields || p.val == a || p.val == b || Some(p.val) == c || Some(p.val) == d)
            && Lookup(r, names[0]) == Some(a) && Lookup(r, names[1]) == Some(b) && Lookup(r, names[2]) == c
            && Lookup(r, names[3]) == d
            && forall k :: k !in names ==> Lookup(r, k) == Lookup(fields, k)
  {
    hide PutMaybe, Lookup;
    PutMaybeLookup(fields, names[0], Some(a));
    var f1 := PutMaybe(fields, names[0], Some(a));
    PutMaybeLookup(f1, names[1], Some(b));
    var f2 := PutMaybe(f1, names[1], Some(b));
    PutMaybeLookup(f2, names[2], c);
    PutMaybeLookup(PutMaybe(f2, names[2], c), names[3], d);
  }

  const STAMPS: seq<string> := ["contentHash", "lineage", "planId", "signedId"]

  lemma StampsDiffer()
    ensures |STAMPS| == 4 && forall i, j :: 0 <= i < j < 4 ==> STAMPS[i] != STAMPS[j]
    ensures STAMPS[0] == "contentHash" && STAMPS[1] == "lineage" && STAMPS[2] == "planId" && STAMPS[3] == "signedId"
    ensures forall k :: k in STAMPS <==> k == "contentHash" || k == "lineage" || k == "planId" || k == "signedId"
  {
  }

  function LabelOf(schema: Value, labelled: string, prefix: string, hash: string): (r: Option<Value>)
  {
    if schema == Str(labelled) then Some(Str(prefix + Take16(hash))) else None
  }

  lemma SealedIsFourPuts(fields: seq<Pair<Value>>, lineage: Value, hash: string)
    ensures var schema := Member(Obj(fields), "schema");
            Sealed(fields, lineage, hash)
            == FourPuts(fields, STAMPS, Str(hash), lineage, LabelOf(schema, TX_PLAN_SCHEMA, "plan-", hash),
                        LabelOf(schema, SIGNED_TX_SCHEMA, "signed-", hash))
  {
    hide PutKey, Member, Take16;
  }

  /** The members of a sealed artifact: the draft's, but for its lineage, its hash and its label. */
  ghost predicate HasMembers(c: Value, fields: seq<Pair<Value>>, lineage: Value, hash: string)
  {
    && c.Obj? && WellFormed(c)
    && Lookup(c.fields, "contentHash") == Some(Str(hash)) && Lookup(c.fields, "lineage") == Some(lineage)
    && Lookup(c.fields, "planId") == LabelOf(Member(c, "schema"), TX_PLAN_SCHEMA, "plan-", hash)
    && Lookup(c.fields, "signedId") == LabelOf(Member(c, "schema"), SIGNED_TX_SCHEMA, "signed-", hash)
    && forall k :: k !in STAMPS ==> Lookup(c.fields, k) == Lookup(fields, k)
  }

  lemma SealedMembers(fields: seq<Pair<Value>>, lineage: Value, hash: string)
    requires WellFormed(Obj(fields)) && WellFormed(lineage) && Lookup(fields, "planId").None?
             && Lookup(fields, "signedId").None?
    ensures HasMembers(Obj(Sealed(fields, lineage, hash)), fields, lineage, hash)
  {
    hide Lookup, FourPuts, Sealed, LabelOf, STAMPS, WellFormed;
    StampsDiffer();
    DistinctOf(fields);
    var schema := Member(Obj(fields), "schema");
    SealedIsFourPuts(fields, lineage, hash);
    FourPutsLookup(fields, STAMPS, Str(hash), lineage, LabelOf(schema, TX_PLAN_SCHEMA, "plan-", hash),
                   LabelOf(schema, SIGNED_TX_SCHEMA, "signed-", hash));
    SchemaIsNoStamp();
    PutsWellFormed(fields, lineage, hash);
  }

  lemma DistinctOf(fields: seq<Pair<Value>>)
    requires WellFormed(Obj(fields))
    ensures DistinctKeys(fields)
  {
  }

  lemma LabelsWellFormed(schema: Value, labelled: string, prefix: string, hash: string)
    ensures LabelOf(schema, labelled, prefix, hash).Some? ==> WellFormed(LabelOf(schema, labelled, prefix, hash).value)
  {
  }

  lemma PutsWellFormed(fields: seq<Pair<Value>>, lineage: Value, hash: string)
    requires WellFormed(Obj(fields)) && WellFormed(lineage) && Lookup(fields, "planId").None?
             && Lookup(fields, "signedId").None?
    ensures WellFormed(Obj(Sealed(fields, lineage, hash)))
  {
    hide Lookup, FourPuts, Sealed, STAMPS, LabelOf;
    StampsDiffer();
    var schema := Member(Obj(fields), "schema");
    SealedIsFourPuts(fields, lineage, hash);
    LabelsWellFormed(schema, TX_PLAN_SCHEMA, "plan-", hash);
    LabelsWellFormed(schema, SIGNED_TX_SCHEMA, "signed-", hash);
    FourPutsLookup(fields, STAMPS, Str(hash), lineage, LabelOf(schema, TX_PLAN_SCHEMA, "plan-", hash),
                   LabelOf(schema, SIGNED_TX_SCHEMA, "signed-", hash));
    var r := Sealed(fields, lineage, hash);
    forall i | 0 <= i < |r| ensures WellFormed(r[i].val) { assert r[i] in r; }
  }

  lemma SchemaIsNoStamp()
    ensures "schema" !in STAMPS && "hashVersion" !in STAMPS && "artifactId" !in STAMPS && "networkId" !in STAMPS
            && "mode" !in STAMPS
  {
  }

  // ----- the block of a child

  function ChildBlock(own: string, root: string, parent: string, n: nat): (r: Value)
  {
    Obj([Pair("artifactId", Str(own)), Pair("lineageId", Str(root)), Pair("parentArtifactId", Str(parent)),
         Pair("rootArtifactId", Str(root)), Pair("sequence", Num(NatText(n)))])
  }

  lemma ChildBlockMembers(own: string, root: string, parent: string, n: nat)
    ensures var l := ChildBlock(own, root, parent, n);
            && WellFormed(l) && Truthy(l)
            && Own(l) == Str(own) && LineId(l) == Str(root) && ParentId(l) == Str(parent) && RootId(l) == Str(root)
            && Sequence(l) == Num(NatText(n)) && Lookup(l.fields, "parentArtifactId").Some?
  {
    hide NatText, Lookup;
    var fs := ChildBlock(own, root, parent, n).fields;
    BlockNames();
    assert NumberText(NatText(n)) by { assert IntText(n) == NatText(n); }
    assert DistinctKeys(fs);
    LookupAt(fs, 0);
    LookupAt(fs, 1);
    LookupAt(fs, 2);
    LookupAt(fs, 3);
    LookupAt(fs, 4);
  }

  lemma BlockNames()
    ensures "artifactId" != "lineageId" && "artifactId" != "parentArtifactId" && "artifactId" != "rootArtifactId"
            && "artifactId" != "sequence"
    ensures "lineageId" != "parentArtifactId" && "lineageId" != "rootArtifactId" && "lineageId" != "sequence"
    ensures "parentArtifactId" != "rootArtifactId" && "parentArtifactId" != "sequence" && "rootArtifactId" != "sequence"
  {
    assert |"artifactId"| == 10 && |"lineageId"| == 9 && |"parentArtifactId"| == 16 && |"rootArtifactId"| == 14
           && |"sequence"| == 8;
  }

  /**
   * A sealed version-5 member of a lineage: its identity, the root its children name, and its sequence (none counts as
   * 0).
   */
  ghost predicate SealedMember(p: Value, id: string, root: string, n: nat, pf: Platform)
  {
    var l := LineageOf(p);
    && WellFormed(p) && CheckArtifactIdentity(p, pf) == Some(id) && Hex64(id) && Hex64(root)
    && DeclaredVersion(p) == Some(5)
    && l.Obj? && Own(l) == Str(id)
    && ((LineId(l).Undefined? && RootId(l).Undefined? && root == id)
        || (LineId(l) == Str(root) && RootId(l) == Str(root)))
    && n <= MAX_SAFE && (Sequence(l) == Num(NatText(n)) || (Sequence(l).Undefined? && n == 0))
  }

  lemma ZeroText()
    ensures NatText(0) == "0"
  {
  }

  /** Below a sealed member, createLineageTransition names it, its root, and the next number. */
  lemma TransitionBelow(p: Value, id: string, root: string, n: nat, pf: Platform, ar: Arithmetic, own: string)
    requires SealedMember(p, id, root, n, pf) && Exact(ar) && n < MAX_SAFE
    ensures CreateLineageTransition(p, own, ar) == ChildBlock(own, root, id, n + 1)
  {
    hide CheckArtifactIdentity, ContentHash, DeclaredVersion, NatText, Member, LineageOf, Own, LineId, RootId, Sequence;
    ZeroText();
    assert ParentName(p) == Str(id);
    assert Or(Sequence(LineageOf(p)), Num("0")) == Num(NatText(n));
    assert ar.addOne(Num(NatText(n))) == Num(NatText(n + 1));
  }

  // ----- the identity of a sealed child

  lemma OwnIdHidden(own: string, other: string, root: string, parent: string, n: nat, pf: Platform)
    ensures Normalize(ChildBlock(own, root, parent, n), RulesOf(5, pf.nfc), InKey(TOP, "lineage"))
            == Normalize(ChildBlock(other, root, parent, n), RulesOf(5, pf.nfc), InKey(TOP, "lineage"))
  {
    hide V4Exclusion, SemanticExclusion, V5Unauthenticated, V5DerivedLabel, NormalText, Normalize, NatText;
    var fs, gs := ChildBlock(own, root, parent, n).fields, ChildBlock(other, root, parent, n).fields;
    assert fs[1..] == gs[1..];
    NonInterference.ExcludedHeadHidden(fs, gs, RulesOf(5, pf.nfc), InKey(TOP, "lineage"));
  }

  /** Stamps are outside the form: sealing does not change the hash it records. */
  lemma SealKeepsForm(f0: seq<Pair<Value>>, c: Value, before: Value, after: Value, hash: string, pf: Platform)
    requires WellFormed(Obj(f0)) && HasMembers(c, f0, after, hash) && Lookup(f0, "lineage") == Some(before)
    requires before.Obj? && after.Obj?
    requires Normalize(before, RulesOf(5, pf.nfc), InKey(TOP, "lineage"))
             == Normalize(after, RulesOf(5, pf.nfc), InKey(TOP, "lineage"))
    ensures ContentHash(c, 5, pf) == ContentHash(Obj(f0), 5, pf)
  {
    hide Normalize, V4Exclusion, SemanticExclusion, V5Unauthenticated, V5DerivedLabel, NormalText, Lookup, Serialize,
         LabelOf;
    var rules := RulesOf(5, pf.nfc);
    StampsDiffer();
    NonInterference.RestampedDropped("contentHash", pf);
    NonInterference.RestampedDropped("planId", pf);
    NonInterference.RestampedDropped("signedId", pf);
    forall k ensures ShownMember(f0, k, rules, TOP) == ShownMember(c.fields, k, rules, TOP) {
      if k in STAMPS && k != "lineage" { assert rules.excluded(k, 0, None); }
    }
    assert SameShown(f0, c.fields, rules, rules, TOP);
    ObjectsNormalEqual(f0, c.fields, rules, rules, TOP);
    FormsDecideNormal(Obj(f0), c, rules, rules, TOP, TOP);
  }

  lemma StampedDraft(fields: seq<Pair<Value>>, lineage: Value)
    requires Draft(fields) && WellFormed(lineage)
    ensures var f0 := PutKey(fields, "lineage", lineage);
            && WellFormed(Obj(f0)) && Lookup(f0, "lineage") == Some(lineage)
            && forall k :: k != "lineage" ==> Lookup(f0, k) == Lookup(fields, k)
  {
    hide PutKey, Lookup;
    var f0 := PutKey(fields, "lineage", lineage);
    PutKeyLookup(fields, "lineage", lineage);
    forall i | 0 <= i < |f0| ensures WellFormed(f0[i].val) { assert f0[i] in f0; }
  }

  lemma DraftLacks(fields: seq<Pair<Value>>)
    requires Draft(fields)
    ensures Lookup(fields, "artifactId").None? && Lookup(fields, "planId").None? && Lookup(fields, "signedId").None?
    ensures "lineage" != "planId" && "lineage" != "signedId" && "lineage" != "artifactId" && "lineage" != "hashVersion"
  {
  }

  /** An artifact with these members verifies as its hash. */
  lemma SealedVerifies(c: Value, f0: seq<Pair<Value>>, lineage: Value, hash: string, pf: Platform)
    requires HasMembers(c, f0, lineage, hash) && hash != [] && Own(lineage) == Str(hash)
    requires ContentHash(c, 5, pf) == hash && Lookup(f0, "hashVersion") == Some(Num("5"))
             && Member(Obj(f0), "artifactId").Undefined?
    ensures DeclaredVersion(c) == Some(5) && CheckArtifactIdentity(c, pf) == Some(hash)
  {
    hide Lookup, ContentHash, Take16, WellFormed, LabelOf, StartsWith, NamesItself, DeclaredVersion, STAMPS;
    SchemaIsNoStamp();
    LabelsDerive(c, TX_PLAN_SCHEMA, "planId", "plan-", hash);
    LabelsDerive(c, SIGNED_TX_SCHEMA, "signedId", "signed-", hash);
    NamedAs(c, hash);
    DeclaresFive(c);
  }

  lemma NamedAs(c: Value, hash: string)
    requires Member(c, "contentHash") == Str(hash) && hash != [] && Own(LineageOf(c)) == Str(hash)
    requires LabelHolds(c, TX_PLAN_SCHEMA, "planId", "plan-" + Take16(hash))
    requires LabelHolds(c, SIGNED_TX_SCHEMA, "signedId", "signed-" + Take16(hash))
    requires Member(c, "artifactId").Undefined?
    ensures NamesItself(c, 5, hash)
  {
    hide Member, LabelHolds, Take16;
  }

  lemma DeclaresFive(c: Value)
    requires Member(c, "hashVersion") == Num("5")
    ensures DeclaredVersion(c) == Some(5)
  {
    hide Member;
  }

  lemma LabelsDerive(c: Value, schema: string, field: string, prefix: string, hash: string)
    requires c.Obj? && Lookup(c.fields, field) == LabelOf(Member(c, "schema"), schema, prefix, hash)
    ensures LabelHolds(c, schema, field, prefix + Take16(hash))
  {
    hide Lookup, Take16, StartsWith;
  }

  lemma ChildHasMembers(fields: seq<Pair<Value>>, p: Value, id: string, root: string, n: nat, pf: Platform,
                        ar: Arithmetic)
    requires Draft(fields) && SealedMember(p, id, root, n, pf) && n < MAX_SAFE && Exact(ar)
    ensures var f0, hash := Stamped(fields, p, ar), SealHash(fields, p, pf, ar);
            && f0 == PutKey(fields, "lineage", ChildBlock("", root, id, n + 1))
            && HasMembers(SealChild(fields, p, pf, ar), f0, ChildBlock(hash, root, id, n + 1), hash)
  {
    hide SealedMember, Exact, ContentHash, NatText, CreateLineageTransition, ChildBlock, Sealed, PutKey, Lookup, Draft,
         HasMembers, Own, LineId, RootId, Sequence, ParentId;
    var hash := SealHash(fields, p, pf, ar);
    TransitionBelow(p, id, root, n, pf, ar, "");
    TransitionBelow(p, id, root, n, pf, ar, hash);
    ChildBlockMembers("", root, id, n + 1);
    ChildBlockMembers(hash, root, id, n + 1);
    StampedDraft(fields, ChildBlock("", root, id, n + 1));
    DraftLacks(fields);
    SealedMembers(Stamped(fields, p, ar), ChildBlock(hash, root, id, n + 1), hash);
  }

  lemma ChildVerifies(fields: seq<Pair<Value>>, c: Value, id: string, root: string, n: nat, pf: Platform, hash: string)
    requires Draft(fields) && HashesAreHex(pf)
    requires var f0 := PutKey(fields, "lineage", ChildBlock("", root, id, n));
             hash == ContentHash(Obj(f0), 5, pf) && HasMembers(c, f0, ChildBlock(hash, root, id, n), hash)
    ensures DeclaredVersion(c) == Some(5) && CheckArtifactIdentity(c, pf) == Some(hash) && Hex64(hash)
  {
    hide HashesAreHex, CheckArtifactIdentity, ContentHash, DeclaredVersion, NatText, ChildBlock, PutKey, Lookup, Draft,
         HasMembers, Own, LineId, RootId, Sequence, ParentId;
    var before, after := ChildBlock("", root, id, n), ChildBlock(hash, root, id, n);
    var f0 := PutKey(fields, "lineage", before);
    ChildBlockMembers("", root, id, n);
    ChildBlockMembers(hash, root, id, n);
    StampedDraft(fields, before);
    DraftLacks(fields);
    DraftVersion(fields);
    OwnIdHidden("", hash, root, id, n, pf);
    ChildIsObject(root, id, n, hash);
    SealKeepsForm(f0, c, before, after, hash, pf);
    HashIsHex(Obj(f0), pf);
    SealedVerifies(c, f0, after, hash, pf);
  }

  lemma ChildIsObject(root: string, id: string, n: nat, own: string)
    ensures ChildBlock(own, root, id, n).Obj?
    ensures ChildBlock("", root, id, n).Obj?
  {
  }

  /** What sealing a draft below a sealed member gives: a sealed member of the same lineage, one further on. */
  lemma SealedBelow(fields: seq<Pair<Value>>, p: Value, id: string, root: string, n: nat, pf: Platform, ar: Arithmetic)
    requires Draft(fields) && SealedMember(p, id, root, n, pf) && n < MAX_SAFE && HashesAreHex(pf) && Exact(ar)
    ensures var c, hash := SealChild(fields, p, pf, ar), SealHash(fields, p, pf, ar);
            && SealedMember(c, hash, root, n + 1, pf) && LineageOf(c) == ChildBlock(hash, root, id, n + 1)
            && forall k :: k !in STAMPS ==> Member(c, k) == Member(Obj(fields), k)
  {
    hide HashesAreHex, Exact, CheckArtifactIdentity, ContentHash, DeclaredVersion, NatText, CreateLineageTransition,
         ChildBlock, Sealed, PutKey, Lookup, Draft, Own, LineId, RootId, Sequence, ParentId, LabelOf, WellFormed,
         STAMPS, Hex64, HasMembers, SealChild, Stamped, Member;
    var c, hash := SealChild(fields, p, pf, ar), SealHash(fields, p, pf, ar);
    ChildHasMembers(fields, p, id, root, n, pf, ar);
    ChildVerifies(fields, c, id, root, n + 1, pf, hash);
    ChildBlockMembers("", root, id, n + 1);
    ChildBlockMembers(hash, root, id, n + 1);
    ChildIsObject(root, id, n + 1, hash);
    MembersSay(c, Stamped(fields, p, ar), ChildBlock(hash, root, id, n + 1), hash);
    forall k | k !in STAMPS ensures Member(c, k) == Member(Obj(fields), k) {
      OtherMembers(fields, c, ChildBlock("", root, id, n + 1), ChildBlock(hash, root, id, n + 1), hash, k);
    }
  }

  lemma MembersSay(c: Value, f0: seq<Pair<Value>>, lineage: Value, hash: string)
    requires HasMembers(c, f0, lineage, hash)
    ensures c.Obj? && WellFormed(c) && LineageOf(c) == lineage
  {
    hide Lookup, LabelOf, STAMPS, WellFormed;
  }

  lemma OtherMembers(fields: seq<Pair<Value>>, c: Value, before: Value, after: Value, hash: string, k: string)
    requires Draft(fields) && WellFormed(before) && HasMembers(c, PutKey(fields, "lineage", before), after, hash)
             && k !in STAMPS
    ensures Member(c, k) == Member(Obj(fields), k)
  {
    hide Draft, Lookup, PutKey, LabelOf, STAMPS, WellFormed;
    StampedDraft(fields, before);
    LineageIsAStamp();
  }

  lemma LineageIsAStamp()
    ensures "lineage" in STAMPS
  {
    assert STAMPS[1] == "lineage";
  }

  lemma HashIsHex(v: Value, pf: Platform)
    requires HashesAreHex(pf)
    ensures Hex64(ContentHash(v, 5, pf)) && ContentHash(v, 5, pf) != []
  {
  }

  lemma DraftVersion(fields: seq<Pair<Value>>)
    requires Draft(fields)
    ensures Lookup(fields, "hashVersion") == Some(Num("5"))
  {
  }

  // ----- a line of descent

  /** The (i+1)-th member was sealed below the i-th, on its network, in its mode, along an allowed transition. */
  ghost predicate ProducedAt(ms: seq<Value>, drafts: seq<seq<Pair<Value>>>, i: nat, pf: Platform, ar: Arithmetic)
    requires i < |drafts| && |ms| == |drafts| + 1
  {
    && Draft(drafts[i]) && ms[i + 1] == SealChild(drafts[i], ms[i], pf, ar)
    && StrictEqual(Member(ms[i + 1], "networkId"), Member(ms[i], "networkId"))
    && StrictEqual(Member(ms[i + 1], "mode"), Member(ms[i], "mode"))
    && ValidTransition(ms[i + 1], ms[i])
  }

  /** From a sealed root with sequence `n`, each member produced below the one before. */
  ghost predicate Produced(ms: seq<Value>, drafts: seq<seq<Pair<Value>>>, root: string, n: nat, pf: Platform,
                           ar: Arithmetic)
  {
    && |ms| == |drafts| + 1 && n + |ms| <= MAX_SAFE
    && SealedMember(ms[0], root, root, n, pf) && ParentReferenceOf(ms[0]).None?
    && forall i :: 0 <= i < |drafts| ==> ProducedAt(ms, drafts, i, pf, ar)
  }

  function IdentityOf(v: Value, pf: Platform): (r: string)
  {
    match CheckArtifactIdentity(v, pf) case Some(id) => id case None => ""
  }

  lemma {:induction false} ProducedMember(ms: seq<Value>, drafts: seq<seq<Pair<Value>>>, root: string, n: nat,
                                          pf: Platform, ar: Arithmetic, i: nat)
    requires Produced(ms, drafts, root, n, pf, ar) && HashesAreHex(pf) && Exact(ar) && i < |ms|
    ensures SealedMember(ms[i], IdentityOf(ms[i], pf), root, n + i, pf)
    ensures i > 0 ==> LineageOf(ms[i]) == ChildBlock(IdentityOf(ms[i], pf), root, IdentityOf(ms[i - 1], pf), n + i)
  {
    hide HashesAreHex, Exact, CheckArtifactIdentity, ContentHash, DeclaredVersion, SealChild, SealHash, ChildBlock,
         LineageOf, Draft, ValidTransition, Own, LineId, RootId, Sequence, Member;
    if i > 0 {
      ProducedMember(ms, drafts, root, n, pf, ar, i - 1);
      assert ProducedAt(ms, drafts, i - 1, pf, ar);
      SealedBelow(drafts[i - 1], ms[i - 1], IdentityOf(ms[i - 1], pf), root, n + i - 1, pf, ar);
    }
  }

  /** Artifacts with different sequence numbers have different version-5 forms, hence different hashes. */
  lemma SequencesSeparate(a: Value, ida: string, ra: string, m: nat, b: Value, idb: string, rb: string, n: nat,
                          pf: Platform)
    requires SealedMember(a, ida, ra, m, pf) && SealedMember(b, idb, rb, n, pf) && CollisionFree(a, b, pf) && m != n
    ensures ida != idb
  {
    hide CheckArtifactIdentity, DeclaredVersion, NatText, ContentHash;
    if ida == idb {
      SameFormSameNumber(a, b, pf);
      NumberShown(LineageOf(a), m);
      NumberShown(LineageOf(b), n);
      NatRoundTrip(m);
      NatRoundTrip(n);
    }
  }

  lemma NumberShown(l: Value, n: nat)
    requires Sequence(l) == Num(NatText(n)) || (Sequence(l).Undefined? && n == 0)
    ensures NonInterference.NumOf(Sequence(l)) == NatText(n)
  {
    ZeroText();
  }

  lemma SequenceKept()
    ensures !Excluded("lineage", 5, 0, None) && !Excluded("sequence", 5, 1, Some("lineage"))
  {
    assert !V5Unauthenticated("lineage") && !V5DerivedLabel("lineage");
  }

  lemma SameFormSameNumber(a: Value, b: Value, pf: Platform)
    requires a.Obj? && b.Obj? && WellFormed(a) && WellFormed(b)
             && CanonicalForm(a, 5, pf.nfc) == CanonicalForm(b, 5, pf.nfc)
    ensures NonInterference.NumOf(Sequence(LineageOf(a))) == NonInterference.NumOf(Sequence(LineageOf(b)))
  {
    hide V4Exclusion, SemanticExclusion, V5Unauthenticated, V5DerivedLabel, NormalText, Normalize, Serialize,
         NonInterference.NumOf, Excluded;
    var rules := RulesOf(5, pf.nfc);
    SequenceKept();
    FormsDecideNormal(a, b, rules, rules, TOP, TOP);
    NonInterference.MemberDetermined(a, b, "lineage", rules, TOP);
    MemberWellFormed(a, "lineage");
    MemberWellFormed(b, "lineage");
    NonInterference.LineageNumber(LineageOf(a), LineageOf(b), "sequence", rules, InKey(TOP, "lineage"));
  }

  /** A child stamped below a sealed member is linked to it. */
  lemma StampedIsLinked(c: Value, own: string, p: Value, id: string, root: string, n: nat, pf: Platform, ar: Arithmetic)
    requires SealedMember(p, id, root, n, pf) && SealedMember(c, own, root, n + 1, pf) && Exact(ar)
    requires LineageOf(c) == ChildBlock(own, root, id, n + 1) && own != id
    requires StrictEqual(Member(c, "networkId"), Member(p, "networkId"))
             && StrictEqual(Member(c, "mode"), Member(p, "mode")) && ValidTransition(c, p)
    ensures Linked(c, p, ar) && Truthy(LineageOf(c)) && Truthy(p)
  {
    hide CheckArtifactIdentity, ContentHash, DeclaredVersion, NatText, ChildBlock, LineageOf, Own, LineId, RootId,
         ParentId, Sequence, Member, ValidTransition, Exact;
    ChildBlockMembers(own, root, id, n + 1);
    var l, p' := LineageOf(c), LineageOf(p);
    assert !NotRising(l, p', ar) by { LaterNumber(l, p', n, ar); }
    HexIsHash(own);
    HexIsHash(id);
    HexIsHash(root);
  }

  lemma LaterNumber(l: Value, p: Value, n: nat, ar: Arithmetic)
    requires Exact(ar) && n < MAX_SAFE && Sequence(l) == Num(NatText(n + 1))
    requires Sequence(p) == Num(NatText(n)) || Sequence(p).Undefined?
    ensures !NotRising(l, p, ar)
  {
    hide Sequence, NatText;
    assert ar.lessEqual(Num(NatText(n + 1)), Num(NatText(n))) <==> n + 1 <= n;
  }

  lemma HexIsHash(s: string)
    requires Hex64(s)
    ensures IsHash(Str(s))
  {
  }

  lemma StampedReference(c: Value, own: string, root: string, parent: string, n: nat)
    requires LineageOf(c) == ChildBlock(own, root, parent, n) && own != parent && parent != []
    ensures ParentReferenceOf(c) == Some(parent)
  {
    hide ChildBlock, LineageOf, NatText, Lookup, Member;
    ChildBlockMembers(own, root, parent, n);
    ChildIsObject(root, parent, n, own);
  }

  // ----- the store

  /** Every member is in the store, and whatever claims a member's identity is a copy of it. */
  ghost predicate Stored(ms: seq<Value>, entries: seq<Entry>, pf: Platform)
  {
    forall i :: 0 <= i < |ms| ==>
      && (exists e :: e in entries && e.artifact == ms[i])
      && (forall e :: e in entries && NamedBy(e.artifact, IdentityOf(ms[i], pf), pf) ==> e.artifact == ms[i])
  }

  lemma StoreFinds(entries: seq<Entry>, v: Value, id: string, pf: Platform)
    requires CheckArtifactIdentity(v, pf) == Some(id) && (exists e :: e in entries && e.artifact == v)
    requires forall e :: e in entries && NamedBy(e.artifact, id, pf) ==> e.artifact == v
    ensures FromStore(id, entries, pf) == Found(id, v)
  {
    hide CheckArtifactIdentity, ContentHash, Answers, Answer, Claimants, NamedBy, ById;
    var answer := Answer(entries, ById(id, pf), pf);
    ByIdExact(entries, id, pf, answer);
    var e :| e in entries && e.artifact == v;
    IdentityClaims(e.artifact, id, pf);
    if answer.Ok? {
      var f :| f in entries && f.path == answer.value.path && f.artifact == answer.value.artifact;
      IdentityClaims(f.artifact, id, pf);
    }
  }

  lemma IdentityClaims(a: Value, id: string, pf: Platform)
    requires CheckArtifactIdentity(a, pf) == Some(id)
    ensures NamedBy(a, id, pf)
  {
    hide ContentHash, CheckArtifactIdentity, Lookup;
  }

  function OldestLast(ms: seq<Value>): (r: seq<Value>)
    ensures |r| == |ms|
    ensures forall k :: 0 <= k < |ms| ==> r[k] == ms[|ms| - 1 - k]
  {
    seq(|ms|, k requires 0 <= k < |ms| => ms[|ms| - 1 - k])
  }

  /** Two members of a line never share an identity. */
  lemma IdentitiesDiffer(ms: seq<Value>, drafts: seq<seq<Pair<Value>>>, root: string, n: nat, pf: Platform,
                         ar: Arithmetic, i: nat, j: nat)
    requires Produced(ms, drafts, root, n, pf, ar) && HashesAreHex(pf) && Exact(ar) && i < |ms| && j < |ms| && i != j
    requires CollisionFree(ms[i], ms[j], pf)
    ensures IdentityOf(ms[i], pf) != IdentityOf(ms[j], pf)
  {
    hide HashesAreHex, Exact, SealedMember, Produced, IdentityOf, CollisionFree;
    ProducedMember(ms, drafts, root, n, pf, ar, i);
    ProducedMember(ms, drafts, root, n, pf, ar, j);
    SequencesSeparate(ms[i], IdentityOf(ms[i], pf), root, n + i, ms[j], IdentityOf(ms[j], pf), root, n + j, pf);
  }

  ghost predicate NoCollisions(ms: seq<Value>, pf: Platform)
  {
    forall i, j :: 0 <= i < |ms| && 0 <= j < |ms| ==> CollisionFree(ms[i], ms[j], pf)
  }

  /** A line of descent in a store, on a platform whose hashes are hexadecimal and do not collide on it. */
  ghost predicate Line(ms: seq<Value>, drafts: seq<seq<Pair<Value>>>, root: string, n: nat, pf: Platform,
                       ar: Arithmetic, entries: seq<Entry>)
  {
    Produced(ms, drafts, root, n, pf, ar) && HashesAreHex(pf) && Exact(ar) && NoCollisions(ms, pf)
      && Stored(ms, entries, pf)
  }

  lemma Apart(ms: seq<Value>, drafts: seq<seq<Pair<Value>>>, root: string, n: nat, pf: Platform, ar: Arithmetic,
              entries: seq<Entry>, i: nat, j: nat)
    requires Line(ms, drafts, root, n, pf, ar, entries) && i < |ms| && j < |ms| && i != j
    ensures IdentityOf(ms[i], pf) != IdentityOf(ms[j], pf)
  {
    hide HashesAreHex, Exact, Produced, Stored, CollisionFree, IdentityOf;
    assert CollisionFree(ms[i], ms[j], pf);
    IdentitiesDiffer(ms, drafts, root, n, pf, ar, i, j);
  }

  /** What a member of the line is. */
  lemma MemberOfLine(ms: seq<Value>, drafts: seq<seq<Pair<Value>>>, root: string, n: nat, pf: Platform, ar: Arithmetic,
                     entries: seq<Entry>, i: nat)
    requires Line(ms, drafts, root, n, pf, ar, entries) && i < |ms|
    ensures SealedMember(ms[i], IdentityOf(ms[i], pf), root, n + i, pf)
            && CheckArtifactIdentity(ms[i], pf) == Some(IdentityOf(ms[i], pf))
    ensures FromStore(IdentityOf(ms[i], pf), entries, pf) == Found(IdentityOf(ms[i], pf), ms[i])
            && Hex64(IdentityOf(ms[i], pf))
    ensures i > 0 ==> LineageOf(ms[i]) == ChildBlock(IdentityOf(ms[i], pf), root, IdentityOf(ms[i - 1], pf), n + i)
  {
    hide HashesAreHex, Exact, Produced, NoCollisions, FromStore, SealedMember, IdentityOf, ChildBlock, LineageOf,
         CheckArtifactIdentity, Claims, ById;
    ProducedMember(ms, drafts, root, n, pf, ar, i);
    SealedVerified(ms[i], IdentityOf(ms[i], pf), root, n + i, pf);
    StoreFinds(entries, ms[i], IdentityOf(ms[i], pf), pf);
  }

  /** The parent of a member is found in the store under the member's reference. */
  lemma ParentFound(ms: seq<Value>, drafts: seq<seq<Pair<Value>>>, root: string, n: nat, pf: Platform, ar: Arithmetic,
                    entries: seq<Entry>, i: nat)
    requires Line(ms, drafts, root, n, pf, ar, entries) && 0 < i < |ms|
    ensures ParentReferenceOf(ms[i]) == Some(IdentityOf(ms[i - 1], pf))
    ensures ResolveParent(ms[i], ParentLookup(None, Some(entries)), pf) == Found(IdentityOf(ms[i - 1], pf), ms[i - 1])
  {
    hide Line, ChildBlock, LineageOf, ParentReferenceOf, FromStore, CheckArtifactIdentity, IdentityOf, SealedMember,
         ResolveParent, Hex64, ContentHash, DeclaredVersion, Member;
    var own, id := IdentityOf(ms[i], pf), IdentityOf(ms[i - 1], pf);
    MemberOfLine(ms, drafts, root, n, pf, ar, entries, i - 1);
    MemberOfLine(ms, drafts, root, n, pf, ar, entries, i);
    Apart(ms, drafts, root, n, pf, ar, entries, i, i - 1);
    HexNotEmpty(id);
    StampedReference(ms[i], own, root, id, n + i);
    StoreResolves(ms[i], id, entries, ms[i - 1], pf);
  }

  lemma HexNotEmpty(s: string)
    requires Hex64(s)
    ensures s != []
  {
  }

  lemma StoreResolves(a: Value, id: string, entries: seq<Entry>, v: Value, pf: Platform)
    requires ParentReferenceOf(a) == Some(id) && Hex64(id) && FromStore(id, entries, pf) == Found(id, v)
    ensures ResolveParent(a, ParentLookup(None, Some(entries)), pf) == Found(id, v)
  {
    hide ParentReferenceOf, FromStore, CheckArtifactIdentity, Hex64, ContentHash, DeclaredVersion, Member;
  }

  /** The link from a member to its parent holds, and names the root. */
  lemma ParentLinked(ms: seq<Value>, drafts: seq<seq<Pair<Value>>>, root: string, n: nat, pf: Platform, ar: Arithmetic,
                     entries: seq<Entry>, i: nat)
    requires Line(ms, drafts, root, n, pf, ar, entries) && 0 < i < |ms|
    ensures LinkHolds(ms[i], ms[i - 1], true, ar)
    ensures RootId(LineageOf(ms[i])) == Str(root)
  {
    hide Line, Exact, SealedMember, ChildBlock, LineageOf, LinkHolds, Linked, ValidTransition, Member, StrictEqual,
         IdentityOf, CheckArtifactIdentity, FromStore, ContentHash, DeclaredVersion, Hex64, Truthy;
    var own, id := IdentityOf(ms[i], pf), IdentityOf(ms[i - 1], pf);
    MemberOfLine(ms, drafts, root, n, pf, ar, entries, i - 1);
    MemberOfLine(ms, drafts, root, n, pf, ar, entries, i);
    Apart(ms, drafts, root, n, pf, ar, entries, i, i - 1);
    StepOfLine(ms, drafts, root, n, pf, ar, entries, i);
    StampedIsLinked(ms[i], own, ms[i - 1], id, root, n + i - 1, pf, ar);
    LinkHoldsExact(ms[i], ms[i - 1], ar);
    ChildBlockMembers(own, root, id, n + i);
  }

  lemma StepOfLine(ms: seq<Value>, drafts: seq<seq<Pair<Value>>>, root: string, n: nat, pf: Platform, ar: Arithmetic,
                   entries: seq<Entry>, i: nat)
    requires Line(ms, drafts, root, n, pf, ar, entries) && 0 < i < |ms|
    ensures StrictEqual(Member(ms[i], "networkId"), Member(ms[i - 1], "networkId"))
    ensures StrictEqual(Member(ms[i], "mode"), Member(ms[i - 1], "mode")) && ValidTransition(ms[i], ms[i - 1])
            && Exact(ar)
  {
    hide HashesAreHex, Exact, NoCollisions, Stored, SealedMember, Draft, SealChild, ValidTransition, Member,
         StrictEqual, ParentReferenceOf;
    assert ProducedAt(ms, drafts, i - 1, pf, ar);
  }

  /**
   * Checked alone, every stamped member of a line passes, strictly; and its version-5 root, which names no parent,
   * passes exactly when it carries neither a lineageId nor a rootArtifactId.
   */
  lemma LineStands(ms: seq<Value>, drafts: seq<seq<Pair<Value>>>, root: string, n: nat, pf: Platform, ar: Arithmetic,
                   entries: seq<Entry>, i: nat, strict: bool)
    requires Line(ms, drafts, root, n, pf, ar, entries) && i < |ms|
    ensures i > 0 ==> LinkHolds(ms[i], Undefined, strict, ar)
    ensures var l := LineageOf(ms[0]);
            !Truthy(ParentId(l)) ==>
              (LinkHolds(ms[0], Undefined, strict, ar) <==> LineId(l).Undefined? && RootId(l).Undefined?)
  {
    hide Line, SealedMember, LineageOf, LinkHolds, IdentityOf, Truthy, LineId, RootId, ParentId, Hex64, ChildBlock,
         CheckArtifactIdentity, FromStore;
    MemberOfLine(ms, drafts, root, n, pf, ar, entries, 0);
    if !Truthy(ParentId(LineageOf(ms[0]))) { SealedRootStands(ms[0], IdentityOf(ms[0], pf), root, n, pf, ar, strict); }
    if i > 0 { ChildStands(ms, drafts, root, n, pf, ar, entries, i, strict); }
  }

  lemma ChildStands(ms: seq<Value>, drafts: seq<seq<Pair<Value>>>, root: string, n: nat, pf: Platform, ar: Arithmetic,
                    entries: seq<Entry>, i: nat, strict: bool)
    requires Line(ms, drafts, root, n, pf, ar, entries) && 0 < i < |ms|
    ensures LinkHolds(ms[i], Undefined, strict, ar)
  {
    hide Line, SealedMember, ChildBlock, LineageOf, LinkHolds, Linked, Joined, StandsAlone, Member, IdentityOf,
         CheckArtifactIdentity, FromStore, Hex64, Truthy, RootId, ContentHash, DeclaredVersion, ParentReferenceOf;
    MemberOfLine(ms, drafts, root, n, pf, ar, entries, i);
    SealedIsThere(ms[i], IdentityOf(ms[i], pf), root, n + i, pf);
    MemberOfLine(ms, drafts, root, n, pf, ar, entries, i - 1);
    SealedIsThere(ms[i - 1], IdentityOf(ms[i - 1], pf), root, n + i - 1, pf);
    ParentLinked(ms, drafts, root, n, pf, ar, entries, i);
    LinkHoldsExact(ms[i], ms[i - 1], ar);
    LinkedStands(ms[i], ms[i - 1], ar);
    AloneHoldsExact(ms[i], Undefined, strict, ar);
  }

  lemma LinkedStands(a: Value, parent: Value, ar: Arithmetic)
    requires Linked(a, parent, ar)
    ensures StandsAlone(a) && !Truthy(Undefined)
  {
    hide Joined, NotRising, LineageOf, StandsAlone;
    JoinedStands(a, parent);
  }

  lemma SealedIsThere(v: Value, id: string, root: string, n: nat, pf: Platform)
    requires SealedMember(v, id, root, n, pf)
    ensures Truthy(v) && Truthy(LineageOf(v))
  {
    hide CheckArtifactIdentity, ContentHash, LineageOf;
  }

  lemma SealedRootStands(p: Value, id: string, root: string, n: nat, pf: Platform, ar: Arithmetic, strict: bool)
    requires SealedMember(p, id, root, n, pf) && !Truthy(ParentId(LineageOf(p)))
    ensures LinkHolds(p, Undefined, strict, ar) <==> LineId(LineageOf(p)).Undefined? && RootId(LineageOf(p)).Undefined?
  {
    hide CheckArtifactIdentity, ContentHash, LineageOf, LinkHolds, DeclaredVersion, Hex64, ParentId, LineId, RootId,
         Own, Member, IsHash;
    SealedIsThere(p, id, root, n, pf);
    AloneHoldsExact(p, Undefined, strict, ar);
    DeclaresFiveExactly(p);
    HexIsHash(id);
  }

  lemma NameOfMember(ms: seq<Value>, drafts: seq<seq<Pair<Value>>>, root: string, n: nat, pf: Platform, ar: Arithmetic,
                     entries: seq<Entry>, k: nat)
    requires Line(ms, drafts, root, n, pf, ar, entries) && k < |ms|
    ensures NameAt(OldestLast(ms), k, pf) == Some(IdentityOf(ms[|ms| - 1 - k], pf))
  {
    hide Line, CheckArtifactIdentity, ParentReferenceOf, ResolveParent, SealedMember, FromStore, IdentityOf,
         ContentHash, DeclaredVersion, Member, ChildBlock, LineageOf, Hex64;
    if k == 0 {
      MemberOfLine(ms, drafts, root, n, pf, ar, entries, |ms| - 1);
    } else {
      ParentFound(ms, drafts, root, n, pf, ar, entries, |ms| - k);
    }
  }

  lemma SealedVerified(v: Value, id: string, root: string, n: nat, pf: Platform)
    requires SealedMember(v, id, root, n, pf)
    ensures CheckArtifactIdentity(v, pf) == Some(id) && Hex64(id)
  {
    hide CheckArtifactIdentity, ContentHash;
  }

  lemma LineIsAncestry(ms: seq<Value>, drafts: seq<seq<Pair<Value>>>, root: string, n: nat, pf: Platform,
                       ar: Arithmetic, entries: seq<Entry>)
    requires Line(ms, drafts, root, n, pf, ar, entries) && ms != []
    ensures Ancestry(OldestLast(ms), ParentLookup(None, Some(entries)), pf) && AllHold(OldestLast(ms), ar)
  {
    hide Line, ResolveParent, LinkHolds, IdentityOf, ParentReferenceOf;
    var chain, lookup := OldestLast(ms), ParentLookup(None, Some(entries));
    forall k: nat | k + 1 < |chain| ensures Follows(chain, k, lookup, pf) && HoldsAt(chain, k, ar) {
      ParentFound(ms, drafts, root, n, pf, ar, entries, |ms| - 1 - k);
      ParentLinked(ms, drafts, root, n, pf, ar, entries, |ms| - 1 - k);
    }
  }

  lemma LineNamesDiffer(ms: seq<Value>, drafts: seq<seq<Pair<Value>>>, root: string, n: nat, pf: Platform,
                        ar: Arithmetic, entries: seq<Entry>)
    requires Line(ms, drafts, root, n, pf, ar, entries)
    ensures NamesDistinct(OldestLast(ms), pf)
  {
    hide Line, NameAt, IdentityOf;
    var chain, last := OldestLast(ms), |ms| - 1;
    forall i, j | 0 <= i < j < |chain| ensures NameAt(chain, i, pf) != NameAt(chain, j, pf) {
      NameOfMember(ms, drafts, root, n, pf, ar, entries, i);
      NameOfMember(ms, drafts, root, n, pf, ar, entries, j);
      Apart(ms, drafts, root, n, pf, ar, entries, last - i, last - j);
    }
  }

  lemma RootOfLine(ms: seq<Value>, drafts: seq<seq<Pair<Value>>>, root: string, n: nat, pf: Platform, ar: Arithmetic,
                   entries: seq<Entry>)
    requires Line(ms, drafts, root, n, pf, ar, entries)
    ensures ms != [] && ParentReferenceOf(ms[0]).None? && IdentityOf(ms[0], pf) == root
  {
    hide ParentReferenceOf, CheckArtifactIdentity, ContentHash, ProducedAt, Stored, NoCollisions, HashesAreHex, Exact;
  }

  lemma RootReached(ms: seq<Value>, drafts: seq<seq<Pair<Value>>>, root: string, n: nat, pf: Platform, ar: Arithmetic,
                    entries: seq<Entry>)
    requires Line(ms, drafts, root, n, pf, ar, entries) && ms != []
    ensures RootDeclared(OldestLast(ms), pf)
  {
    hide Line, ParentReferenceOf, LinkHolds, IdentityOf, NameAt, LineageOf, RootId;
    RootOfLine(ms, drafts, root, n, pf, ar, entries);
    if |ms| > 1 {
      ParentLinked(ms, drafts, root, n, pf, ar, entries, |ms| - 1);
      NameOfMember(ms, drafts, root, n, pf, ar, entries, |ms| - 1);
    }
  }

  /**
   * Producers and the walker agree, for lines of any length: whatever is stamped with createLineageTransition below a
   * sealed version-5 root, along allowed transitions on one network and in one mode, is a complete chain of the store
   * that holds it; and the walker reports a complete chain exactly when there is one within its hop limit.
   */
  lemma ProducedIsComplete(ms: seq<Value>, drafts: seq<seq<Pair<Value>>>, root: string, n: nat, pf: Platform,
                           ar: Arithmetic, entries: seq<Entry>, maxHops: nat)
    requires Line(ms, drafts, root, n, pf, ar, entries)
    ensures ms != [] && Complete(OldestLast(ms), ParentLookup(None, Some(entries)), pf, ar)
    ensures |ms| <= maxHops + 1 ==>
              LineageChain.Candidate(OldestLast(ms), ms[|ms| - 1], ParentLookup(None, Some(entries)), maxHops, pf, ar)
  {
    hide Line, ParentReferenceOf, ResolveParent, AllHold, Ancestry, NamesDistinct, RootDeclared, IdentityOf;
    RootOfLine(ms, drafts, root, n, pf, ar, entries);
    LineIsAncestry(ms, drafts, root, n, pf, ar, entries);
    LineNamesDiffer(ms, drafts, root, n, pf, ar, entries);
    RootReached(ms, drafts, root, n, pf, ar, entries);
  }
}
