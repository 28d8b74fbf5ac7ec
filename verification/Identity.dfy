/**
 * The identity an artifact verifies as: the hash recomputed under the version it declares, and every label that names
 * it.
 */
module Identity {
  import opened Common
  import opened Json
  import opened HashVersions
  import opened Migration

  /** `a === b`: objects and arrays are equal only to themselves, which two artifacts never share. */
  predicate StrictEqual(a: Value, b: Value)
  {
    a == b && !a.Obj? && !a.Arr? && !a.NaN?
  }

  predicate Truthy(v: Value)
  {
    match v
    case Undefined => false
    case Null => false
    case NaN => false
    case Bool(b) => b
    case Num(t) => t != "0"
    case BigInt(n) => n != 0
    case Str(s) => s != []
    case _ => true
  }

  /** The values JavaScript takes for false, and no others. */
  lemma FalsyExactly(v: Value)
    ensures !Truthy(v) <==> v in [Undefined, Null, Bool(false), Num("0"), NaN, BigInt(0), Str("")]
  {
  }

  /** `===` never holds of two objects or arrays, nor of NaN; of anything else it is equality. */
  lemma StrictlyEqual(a: Value, b: Value)
    ensures StrictEqual(a, b) <==>
              match a
              case Obj(_) => false
              case Arr(_) => false
              case NaN => false
              case _ => a == b
  {
  }

  predicate StartsWith(v: Value, prefix: string)
  {
    v.Str? && |prefix| <= |v.s| && v.s[..|prefix|] == prefix
  }

  /** A label of an artifact whose schema has one derives from its hash, when it is present. */
  predicate LabelHolds(artifact: Value, schema: string, field: string, derived: string)
  {
    StartsWith(Member(artifact, "schema"), schema) ==>
      Member(artifact, field).Undefined? || Member(artifact, field) == Str(derived)
  }

  /** What a version-`version` artifact that hashes to `id` must say of itself. */
  predicate NamesItself(artifact: Value, version: int, id: string)
  {
    && Member(artifact, "contentHash") == Str(id) && id != []
    && (var named := Member(Member(artifact, "lineage"), "artifactId"); named.Str? && named.s != [] ==> named.s == id)
    && LabelHolds(artifact, TX_PLAN_SCHEMA, "planId", "plan-" + Take16(id))
    && LabelHolds(artifact, SIGNED_TX_SCHEMA, "signedId", "signed-" + Take16(id))
    && (version == CURRENT_HASH_VERSION ==> Member(artifact, "artifactId").Undefined?)
  }

  /** checkArtifactIdentity: the identity, when the artifact verifies as one. */
  function CheckArtifactIdentity(artifact: Value, pf: Platform): (r: Option<string>)
    ensures r.Some? ==>
              DeclaredVersion(artifact).Some? && r.value == ContentHash(artifact, DeclaredVersion(artifact).value, pf)
    ensures r.Some? ==> Member(artifact, "contentHash") == Str(r.value) && r.value != []
  {
    match DeclaredVersion(artifact)
    case None => None
    case Some(version) =>
      var id := ContentHash(artifact, version, pf);
      if NamesItself(artifact, version, id) then Some(id) else None
  }

  /** safeRecompute: the hash an artifact has, whatever it says of itself. */
  function Recomputed(artifact: Value, pf: Platform): (r: Option<string>)
  {
    match DeclaredVersion(artifact)
    case None => None
    case Some(version) => Some(ContentHash(artifact, version, pf))
  }
}
