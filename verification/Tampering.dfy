/**
 * What may be changed in an artifact without changing the identity it verifies as: exactly which value may be put under
 * which top-level key of a verified version-5 artifact.
 */
module Tampering {
  import opened Common
  import opened Json
  import opened Canonical
  import opened Paths
  import opened HashVersions
  import opened Migration
  import opened Identity
  import Resolver

  /** The artifact with `x` under a top-level key, whether it had the key or not. */
  function Changed(v: Value, k: string, x: Value): (r: Value)
    requires v.Obj?
  {
    Obj(PutKey(v.fields, k, x))
  }

  lemma ChangedMember(v: Value, k: string, x: Value, q: string)
    requires v.Obj? && WellFormed(v) && WellFormed(x)
    ensures WellFormed(Changed(v, k, x))
    ensures Lookup(Changed(v, k, x).fields, q) == if q == k then Some(x) else Lookup(v.fields, q)
    ensures Member(Changed(v, k, x), q) == if q == k then x else Member(v, q)
  {
    hide PutKey, Lookup;
    PutKeyLookup(v.fields, k, x);
    var fs := PutKey(v.fields, k, x);
    forall i | 0 <= i < |fs| ensures WellFormed(fs[i].val) { assert fs[i] in fs; }
  }

  /** What version 5 shows of one member. */
  function ShownNow(x: Value, k: string, pf: Platform): (r: Option<Norm>)
  {
    Shown(x, RulesOf(5, pf.nfc), InKey(TOP, k), true)
  }

  /** Under a key version 5 drops the form stays; under any other it stays exactly when the member shows the same. */
  lemma FormStays(v: Value, k: string, x: Value, pf: Platform)
    requires v.Obj? && WellFormed(v) && WellFormed(x)
    ensures CanonicalForm(Changed(v, k, x), 5, pf.nfc) == CanonicalForm(v, 5, pf.nfc) <==>
              Excluded(k, 5, 0, None) || ShownNow(x, k, pf) == ShownNow(Member(v, k), k, pf)
  {
    hide PutKey, Lookup, Normalize, Serialize, Excluded, NormalText;
    var rules, w := RulesOf(5, pf.nfc), Changed(v, k, x);
    ChangedMember(v, k, x, k);
    FormsDecideNormal(w, v, rules, rules, TOP, TOP);
    ObjectsNormalEqual(w.fields, v.fields, rules, rules, TOP);
    forall q ensures ShownMember(w.fields, q, rules, TOP)
                     == if q == k && !Excluded(k, 5, 0, None) then ShownNow(x, k, pf)
                        else ShownMember(v.fields, q, rules, TOP) {
      ChangedMember(v, k, x, q);
    }
    assert ShownMember(v.fields, k, rules, TOP) == if Excluded(k, 5, 0, None) then None
                                                   else ShownNow(Member(v, k), k, pf);
  }

  // ----- what an identity asks of one member

  /** The text begins with the prefix. */
  ghost predicate Begins(v: Value, prefix: string)
  {
    exists rest :: v == Str(prefix + rest)
  }

  /** A value a label may have, given the schema beside it: none, or the one derived from the identity. */
  ghost predicate LabelFits(schema: Value, labelled: string, name: Value, derived: string)
  {
    Begins(schema, labelled) ==> name.Undefined? || name == Str(derived)
  }

  ghost predicate LabelsFit(schema: Value, plan: Value, signed: Value, id: string)
  {
    && LabelFits(schema, "hardkas.txPlan", plan, "plan-" + Take16(id))
    && LabelFits(schema, "hardkas.signedTx", signed, "signed-" + Take16(id))
  }

  /** The lineage block names no other identity as its own. */
  predicate OwnIdFits(lineage: Value, id: string)
  {
    var own := Member(lineage, "artifactId");
    !own.Str? || own.s == "" || own.s == id
  }

  /**
   * What may stand under a key of a verified artifact. Its operational fields are free; its contentHash, its version
   * and the label of its schema are fixed, and so is the absence of a top-level artifactId; everything else may only
   * change in what version 5 does not show, and then a lineage still names no other identity and a schema still fits
   * its labels.
   */
  ghost predicate MayStand(v: Value, k: string, x: Value, id: string, pf: Platform)
  {
    if k in V5_UNAUTHENTICATED then true
    else if k == "contentHash" then x == Str(id)
    else if k == "hashVersion" then x == Num("5")
    else if k == "planId" then LabelsFit(Member(v, "schema"), x, Member(v, "signedId"), id)
    else if k == "signedId" then LabelsFit(Member(v, "schema"), Member(v, "planId"), x, id)
    else if k == "artifactId" then x.Undefined?
    else
      && ShownNow(x, k, pf) == ShownNow(Member(v, k), k, pf)
      && (k == "lineage" ==> OwnIdFits(x, id))
      && (k == "schema" ==> LabelsFit(x, Member(v, "planId"), Member(v, "signedId"), id))
  }

  lemma BeginsExact(v: Value, prefix: string)
    ensures StartsWith(v, prefix) <==> Begins(v, prefix)
  {
    if StartsWith(v, prefix) { assert v.s == prefix + v.s[|prefix|..]; }
  }

  /** What an artifact that declares version 5 and hashes to `id` must hold. */
  lemma NamesExact(a: Value, id: string)
    ensures NamesItself(a, 5, id) <==>
              && Member(a, "contentHash") == Str(id) && id != []
              && OwnIdFits(Member(a, "lineage"), id)
              && LabelsFit(Member(a, "schema"), Member(a, "planId"), Member(a, "signedId"), id)
              && Member(a, "artifactId").Undefined?
  {
    hide StartsWith, Begins, Member, Take16;
    BeginsExact(Member(a, "schema"), TX_PLAN_SCHEMA);
    BeginsExact(Member(a, "schema"), SIGNED_TX_SCHEMA);
  }

  lemma TopDrops(k: string)
    ensures Excluded(k, 5, 0, None) <==>
              k in V5_UNAUTHENTICATED || k == "contentHash" || k == "planId" || k == "signedId"
  {
    assert k in ["planId", "signedId"] <==> k == "planId" || k == "signedId";
  }

  lemma FreeNames(k: string)
    requires k in V5_UNAUTHENTICATED
    ensures k != "contentHash" && k != "hashVersion" && k != "planId" && k != "signedId" && k != "artifactId"
    ensures k != "lineage" && k != "schema"
  {
  }

  lemma VersionFive(a: Value)
    ensures DeclaredVersion(a) == Some(5) <==> Member(a, "hashVersion") == Num("5")
  {
    hide Member;
  }

  /** A changed artifact of version 5 has the same hash exactly when its form stays, hashes not colliding. */
  lemma HashStays(v: Value, w: Value, id: string, pf: Platform)
    requires v.Obj? && w.Obj? && DeclaredVersion(v) == Some(5) && DeclaredVersion(w) == Some(5)
    requires ContentHash(v, 5, pf) == id && Resolver.CollisionFree(v, w, pf)
    ensures ContentHash(w, 5, pf) == id <==> CanonicalForm(w, 5, pf.nfc) == CanonicalForm(v, 5, pf.nfc)
  {
    hide Serialize, DeclaredVersion, RulesOf;
  }

  /** The identity of a version-5 artifact is that hash exactly when it hashes to it and names nothing else. */
  lemma IdentityIs(w: Value, id: string, pf: Platform)
    requires DeclaredVersion(w) == Some(5)
    ensures CheckArtifactIdentity(w, pf) == Some(id) <==> ContentHash(w, 5, pf) == id && NamesItself(w, 5, id)
  {
    hide ContentHash, DeclaredVersion, NamesItself;
  }

  lemma OtherVersion(v: Value, w: Value, id: string, pf: Platform)
    requires WellFormed(v) && WellFormed(w) && DeclaredVersion(v) == Some(5) && DeclaredVersion(w) != Some(5)
    requires CheckArtifactIdentity(v, pf) == Some(id) && Resolver.CollisionFree(v, w, pf)
    ensures CheckArtifactIdentity(w, pf) != Some(id)
  {
    hide ContentHash, DeclaredVersion, CanonicalForm, WellFormed, CheckArtifactIdentity;
    if CheckArtifactIdentity(w, pf) == Some(id) { VersionsSeparated(v, w, pf.nfc); }
  }

  /**
   * Putting a value under a top-level key of a verified version-5 artifact leaves it verifying as the same identity
   * exactly when the value may stand there.
   */
  lemma ChangeExact(v: Value, k: string, x: Value, id: string, pf: Platform)
    requires WellFormed(v) && WellFormed(x) && DeclaredVersion(v) == Some(5) && CheckArtifactIdentity(v, pf) == Some(id)
    requires Resolver.CollisionFree(v, Changed(v, k, x), pf)
    ensures CheckArtifactIdentity(Changed(v, k, x), pf) == Some(id) <==> MayStand(v, k, x, id, pf)
  {
    hide ContentHash, DeclaredVersion, CanonicalForm, WellFormed, CheckArtifactIdentity, NamesItself, LabelsFit,
         OwnIdFits, Excluded, ShownNow, V5_UNAUTHENTICATED, Resolver.CollisionFree, Changed, Member;
    var w := Changed(v, k, x);
    MembersAre(v, k, x);
    VersionFive(v);
    VersionFive(w);
    if k == "hashVersion" && x != Num("5") {
      if k in V5_UNAUTHENTICATED { FreeNames(k); }
      OtherVersion(v, w, id, pf);
    } else {
      SameVersionChange(v, k, x, id, pf);
      SameVersionNames(v, k, x, id, pf);
    }
  }

  /** With the version as it was, the identity stays exactly when the form does and nothing else is named. */
  lemma SameVersionChange(v: Value, k: string, x: Value, id: string, pf: Platform)
    requires WellFormed(v) && WellFormed(x) && DeclaredVersion(v) == Some(5) && CheckArtifactIdentity(v, pf) == Some(id)
    requires Resolver.CollisionFree(v, Changed(v, k, x), pf) && DeclaredVersion(Changed(v, k, x)) == Some(5)
    ensures NamesItself(v, 5, id)
    ensures CheckArtifactIdentity(Changed(v, k, x), pf) == Some(id) <==>
              && (Excluded(k, 5, 0, None) || ShownNow(x, k, pf) == ShownNow(Member(v, k), k, pf))
              && NamesItself(Changed(v, k, x), 5, id)
  {
    hide ContentHash, DeclaredVersion, CanonicalForm, WellFormed, CheckArtifactIdentity, NamesItself, Excluded,
         ShownNow, Resolver.CollisionFree, Changed, Member;
    MembersAre(v, k, x);
    IdentityIs(v, id, pf);
    IdentityIs(Changed(v, k, x), id, pf);
    HashStays(v, Changed(v, k, x), id, pf);
    FormStays(v, k, x, pf);
  }

  lemma SameVersionNames(v: Value, k: string, x: Value, id: string, pf: Platform)
    requires v.Obj? && WellFormed(v) && WellFormed(x) && NamesItself(v, 5, id)
    requires k == "hashVersion" ==> x == Num("5") == Member(v, k)
    ensures MayStand(v, k, x, id, pf) <==>
              && (Excluded(k, 5, 0, None) || ShownNow(x, k, pf) == ShownNow(Member(v, k), k, pf))
              && NamesItself(Changed(v, k, x), 5, id)
  {
    hide WellFormed, NamesItself, LabelsFit, OwnIdFits, Excluded, ShownNow, V5_UNAUTHENTICATED, Changed, Member;
    MembersAre(v, k, x);
    NamesExact(v, id);
    NamesExact(Changed(v, k, x), id);
    TopDrops(k);
    if k in V5_UNAUTHENTICATED { FreeNames(k); }
    if k == "hashVersion" || k == "artifactId" { SameShownNow(v, k, x, pf); }
  }

  lemma SameShownNow(v: Value, k: string, x: Value, pf: Platform)
    ensures x == Member(v, k) ==> ShownNow(x, k, pf) == ShownNow(Member(v, k), k, pf)
    ensures x.Undefined? && Member(v, k).Undefined? ==> ShownNow(x, k, pf) == ShownNow(Member(v, k), k, pf)
  {
  }

  lemma MembersAre(v: Value, k: string, x: Value)
    requires v.Obj? && WellFormed(v) && WellFormed(x)
    ensures WellFormed(Changed(v, k, x)) && Changed(v, k, x).Obj?
    ensures forall q :: Member(Changed(v, k, x), q) == if q == k then x else Member(v, q)
  {
    hide Changed, Lookup, Member;
    forall q ensures Member(Changed(v, k, x), q) == if q == k then x else Member(v, q) { ChangedMember(v, k, x, q); }
    ChangedMember(v, k, x, "");
    assert Changed(v, k, x).Obj? by { ChangedIsObject(v, k, x); }
  }

  lemma ChangedIsObject(v: Value, k: string, x: Value)
    requires v.Obj?
    ensures Changed(v, k, x).Obj?
  {
  }
}
