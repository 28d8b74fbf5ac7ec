/**
 * Re-issuing a legacy artifact as version 5: the source is verified, every field its version never authenticated is
 * removed and recorded as a claim, the lineage is rebuilt below the source, and the rest is hashed again.
 */
module Migration {
  import opened Common
  import opened Json
  import opened Canonical
  import opened Paths
  import opened HashVersions
  import opened LegacyFields
  import opened Prune

  /**
   * What the platform computes: SHA-256 in hexadecimal, Unicode NFC, adding one to a number (as texts), and the strict
   * verification of a finished artifact.
   */
  datatype Platform = Platform(
    sha256: string -> string, nfc: string -> string, plusOne: string -> string, verifies: Value -> bool)

  datatype MigrationError = HashVersionInvalid | SourceInvalid | TargetUnsupported | NotNeeded | ResultInvalid

  datatype VerifiedSource = VerifiedSource(hashVersion: int, artifactId: string)

  const TX_PLAN_SCHEMA: string := "hardkas.txPlan"
  const SIGNED_TX_SCHEMA: string := "hardkas.signedTx"
  const LEGACY_CLAIMS_NOTE: string :=
    "Values the source artifact carried in fields its hash version never authenticated. "
    + "They are recorded as the source's claim, not verified by this artifact."

  function ContentHash(v: Value, version: int, pf: Platform): (h: string)
  {
    pf.sha256(Serialize(v, RulesOf(version, pf.nfc), TOP))
  }

  predicate Hex64(s: string)
  {
    |s| == 64 && forall i :: 0 <= i < 64 ==> '0' <= s[i] <= '9' || 'a' <= s[i] <= 'f'
  }

  /** A migration starts from a source that hashes to the identity it claims under the version it declares. */
  function VerifyMigrationSource(source: Value, pf: Platform): (r: Result<VerifiedSource, MigrationError>)
    ensures r.Ok? ==> DeclaredVersion(source) == Some(r.value.hashVersion)
    ensures r.Ok? ==> r.value.artifactId == ContentHash(source, r.value.hashVersion, pf)
    ensures r.Ok? ==> Member(source, "contentHash") == Str(r.value.artifactId)
  {
    match DeclaredVersion(source)
    case None => Err(HashVersionInvalid)
    case Some(version) =>
      var recomputed := ContentHash(source, version, pf);
      var claimed := Member(source, "contentHash");
      var named := Member(Member(source, "lineage"), "artifactId");
      if !claimed.Str? || claimed.s == [] || claimed.s != recomputed then Err(SourceInvalid)
      else if named.Str? && named.s != [] && named.s != recomputed then Err(SourceInvalid)
      else Ok(VerifiedSource(version, recomputed))
  }

  /**
   * A source verifies exactly when it declares a version, its contentHash is the non-empty hash it has under that
   * version, and its lineage names no other identity as its own.
   */
  lemma SourceExact(source: Value, verified: VerifiedSource, pf: Platform)
    ensures VerifyMigrationSource(source, pf) == Ok(verified) <==>
              && DeclaredVersion(source) == Some(verified.hashVersion) && verified.artifactId != []
              && Member(source, "contentHash") == Str(verified.artifactId)
              && ContentHash(source, verified.hashVersion, pf) == verified.artifactId
              && (forall own :: Member(Member(source, "lineage"), "artifactId") == Str(own) ==>
                    own == [] || own == verified.artifactId)
  {
    hide ContentHash, DeclaredVersion, Member;
    var named := Member(Member(source, "lineage"), "artifactId");
    assert named.Str? ==> named == Str(named.s);
  }

  // ----- assignment and deletion of members

  /** `object[key] = value`. */
  function PutKey(fields: seq<Pair<Value>>, k: string, x: Value): (r: seq<Pair<Value>>)
  {
    if Lookup(fields, k).Some? then SetKey(fields, k, x) else fields + [Pair(k, x)]
  }

  lemma {:induction false} AppendLookup(fields: seq<Pair<Value>>, k: string, x: Value, q: string)
    requires Lookup(fields, k).None?
    ensures Lookup(fields + [Pair(k, x)], q) == if q == k then Some(x) else Lookup(fields, q)
  {
    if fields != [] {
      assert (fields + [Pair(k, x)])[1..] == fields[1..] + [Pair(k, x)];
      assert forall i :: 0 <= i < |fields[1..]| ==> fields[1..][i] == fields[i + 1];
      AppendLookup(fields[1..], k, x, q);
    }
  }

  lemma PutKeyLookup(fields: seq<Pair<Value>>, k: string, x: Value)
    requires DistinctKeys(fields)
    ensures DistinctKeys(PutKey(fields, k, x))
    ensures forall p :: p in PutKey(fields, k, x) ==> p in fields || p == Pair(k, x)
    ensures forall q :: Lookup(PutKey(fields, k, x), q) == if q == k then Some(x) else Lookup(fields, q)
  {
    forall q ensures Lookup(PutKey(fields, k, x), q) == if q == k then Some(x) else Lookup(fields, q) {
      if Lookup(fields, k).Some? { SetKeyLookup(fields, k, x, q); } else { AppendLookup(fields, k, x, q); }
    }
  }

  // ----- stripping

  /** The paths longest first, then in text order. */
  function InsertLongestFirst(t: string, ts: seq<string>): (r: seq<string>)
  {
    if ts == [] || |ts[0]| < |t| || (|ts[0]| == |t| && KeyLess(t, ts[0])) then [t] + ts
    else [ts[0]] + InsertLongestFirst(t, ts[1..])
  }

  function SortLongestFirst(ts: seq<string>): (r: seq<string>)
  {
    if ts == [] then [] else InsertLongestFirst(ts[0], SortLongestFirst(ts[1..]))
  }

  lemma {:induction false} InsertLongestMembers(t: string, ts: seq<string>, x: string)
    ensures x in InsertLongestFirst(t, ts) <==> x == t || x in ts
  {
    if ts == [] || |ts[0]| < |t| || (|ts[0]| == |t| && KeyLess(t, ts[0])) {
    } else {
      InsertLongestMembers(t, ts[1..], x);
      assert ts == [ts[0]] + ts[1..];
    }
  }

  lemma {:induction false} SortLongestMembers(ts: seq<string>, x: string)
    ensures x in SortLongestFirst(ts) <==> x in ts
  {
    if ts != [] {
      SortLongestMembers(ts[1..], x);
      InsertLongestMembers(ts[0], SortLongestFirst(ts[1..]), x);
      assert ts == [ts[0]] + ts[1..];
    }
  }

  /** The longest texts first, and texts of one length in order. */
  ghost predicate LongestFirst(ts: seq<string>)
  {
    forall i, j :: 0 <= i < j < |ts| ==> |ts[i]| > |ts[j]| || (|ts[i]| == |ts[j]| && !KeyLess(ts[j], ts[i]))
  }

  lemma {:induction false} InsertLongestOrdered(t: string, ts: seq<string>)
    requires LongestFirst(ts)
    ensures LongestFirst(InsertLongestFirst(t, ts))
  {
    var r := InsertLongestFirst(t, ts);
    if ts == [] {
    } else if |ts[0]| < |t| || (|ts[0]| == |t| && KeyLess(t, ts[0])) {
      forall j | 0 <= j < |ts| ensures |t| > |ts[j]| || (|t| == |ts[j]| && !KeyLess(ts[j], t)) {
        if |ts[j]| == |t| {
          assert |ts[0]| == |t| && KeyLess(t, ts[0]);
          if j == 0 { KeyLessAsymmetric(t, ts[0]); } else { StillAfter(t, ts[0], ts[j]); }
        }
      }
    } else {
      assert forall i :: 0 <= i < |ts[1..]| ==> ts[1..][i] == ts[i + 1];
      InsertLongestOrdered(t, ts[1..]);
      var rest := InsertLongestFirst(t, ts[1..]);
      forall j | 0 <= j < |rest| ensures |ts[0]| > |rest[j]| || (|ts[0]| == |rest[j]| && !KeyLess(rest[j], ts[0])) {
        InsertLongestMembers(t, ts[1..], rest[j]);
        assert rest[j] in rest;
        if rest[j] != t {
          var k :| 0 <= k < |ts[1..]| && ts[1..][k] == rest[j];
          assert ts[k + 1] == rest[j];
        }
      }
    }
  }

  lemma StillAfter(a: string, b: string, c: string)
    requires KeyLess(a, b) && !KeyLess(c, b)
    ensures !KeyLess(c, a)
  {
    if KeyLess(c, a) { KeyLessTransitive(c, a, b); }
  }

  /** The stripping loop takes nested paths before what encloses them. */
  lemma {:induction false} SortLongestOrdered(ts: seq<string>)
    ensures LongestFirst(SortLongestFirst(ts)) && forall x :: x in SortLongestFirst(ts) <==> x in ts
  {
    hide InsertLongestFirst;
    if ts != [] {
      SortLongestOrdered(ts[1..]);
      InsertLongestOrdered(ts[0], SortLongestFirst(ts[1..]));
    }
    forall x ensures x in SortLongestFirst(ts) <==> x in ts { SortLongestMembers(ts, x); }
  }

  /** What stripping leaves: the body, and the claims by path text. */
  datatype Stripped = Stripped(body: Value, claims: seq<Pair<Value>>)

  /** One removal: hashVersion is re-declared, a missing value is skipped, any other becomes a claim. */
  function StripOne(s: Stripped, text: string): (r: Stripped)
  {
    if text == "hashVersion" then s
    else
      var path := ParsePath(text);
      var value := TryAt(s.body, path);
      if value.Undefined? then s else Stripped(DeleteAt(s.body, path), PutKey(s.claims, text, value))
  }

  function StripAll(s: Stripped, texts: seq<string>): (r: Stripped)
    decreases |texts|
  {
    if texts == [] then s else StripAll(StripOne(s, texts[0]), texts[1..])
  }

  function StripSource(source: Value, version: int, pf: Platform): (r: Stripped)
  {
    StripAll(Stripped(source, []), SortLongestFirst(RenderAll([], MaterialPaths(source, version, pf.nfc))))
  }

  // ----- the new artifact

  function Carried(source: Value, version: int, field: string): (r: Option<string>)
  {
    var value := Member(Member(source, "lineage"), field);
    if version >= 4 && value.Str? && Hex64(value.s) then Some(value.s) else None
  }

  function PreviousSequence(source: Value): (t: string)
  {
    var value := Member(Member(source, "lineage"), "sequence");
    if value.Num? then value.text else "0"
  }

  /** The lineage block of a re-issue: a child of the verified source. */
  function ReissueLineage(source: Value, verified: VerifiedSource, pf: Platform, own: string): (r: Value)
  {
    var rootId := match Carried(source, verified.hashVersion, "rootArtifactId") case Some(s) => s case None =>
      verified.artifactId;
    var lineageId := match Carried(source, verified.hashVersion, "lineageId") case Some(s) => s case None => rootId;
    Obj([Pair("artifactId", Str(own)),
         Pair("lineageId", Str(lineageId)),
         Pair("parentArtifactId", Str(verified.artifactId)),
         Pair("rootArtifactId", Str(rootId)),
         Pair("sequence", Num(pf.plusOne(PreviousSequence(source))))])
  }

  function LegacyClaims(verified: VerifiedSource, claims: seq<Pair<Value>>): (r: Value)
  {
    Obj([Pair("sourceHashVersion", Num(IntText(verified.hashVersion))),
         Pair("sourceArtifactId", Str(verified.artifactId)),
         Pair("verified", Bool(false)),
         Pair("note", Str(LEGACY_CLAIMS_NOTE)),
         Pair("fields", Obj(SortByKey(claims)))])
  }

  /** The claims once a remaining top-level artifactId is one of them. */
  function ClaimsOf(s: Stripped): (r: seq<Pair<Value>>)
  {
    if Member(s.body, "artifactId").Undefined? || Lookup(s.claims, "artifactId").Some? then s.claims
    else PutKey(s.claims, "artifactId", Member(s.body, "artifactId"))
  }

  /** The members that are rebuilt or never enter version 5, deleted. */
  function Bare(fields: seq<Pair<Value>>): (r: seq<Pair<Value>>)
  {
    var kept := if Member(Obj(fields), "artifactId").Undefined? then fields else RemoveKey(fields, "artifactId");
    RemoveKey(RemoveKey(RemoveKey(RemoveKey(kept, "planId"), "signedId"), "contentHash"), "originalContentHash")
  }

  function Unsealed(fields: seq<Pair<Value>>, lineage: Value, claims: Option<Value>): (r: seq<Pair<Value>>)
  {
    var withLineage := PutKey(Bare(fields), "lineage", lineage);
    var withClaims := match claims
                      case Some(c) => PutKey(withLineage, "legacyClaims", c)
                      case None => RemoveKey(withLineage, "legacyClaims");
    PutKey(withClaims, "hashVersion", Num("5"))
  }

  function Take16(s: string): (r: string)
  {
    if |s| <= 16 then s else s[..16]
  }

  function Sealed(fields: seq<Pair<Value>>, lineage: Value, hash: string): (r: seq<Pair<Value>>)
  {
    var stamped := PutKey(PutKey(fields, "contentHash", Str(hash)), "lineage", lineage);
    var schema := Member(Obj(fields), "schema");
    var planned := if schema == Str(TX_PLAN_SCHEMA) then PutKey(stamped, "planId", Str("plan-" + Take16(hash)))
      else stamped;
    if schema == Str(SIGNED_TX_SCHEMA) then PutKey(planned, "signedId", Str("signed-" + Take16(hash))) else planned
  }

  datatype Reissue = Reissue(artifact: Value, claims: seq<Pair<Value>>)

  /** What sealing a verified source gives, before its own verification decides whether it is issued. */
  function ReissueOf(source: Value, verified: VerifiedSource, pf: Platform): (r: Reissue)
  {
    var s := StripSource(source, verified.hashVersion, pf);
    var fields := if s.body.Obj? then s.body.fields else [];
    var claims := ClaimsOf(s);
    var block := if claims == [] then None else Some(LegacyClaims(verified, claims));
    var body := Unsealed(fields, ReissueLineage(source, verified, pf, ""), block);
    var hash := ContentHash(Obj(body), 5, pf);
    Reissue(Obj(Sealed(body, ReissueLineage(source, verified, pf, hash), hash)), claims)
  }

  /** The sealing loop over a clone of the source, field by field. */
  method SealFromVerifiedSource(source: Value, verified: VerifiedSource, pf: Platform)
    returns (r: Result<Reissue, MigrationError>)
    requires source.Obj?
    ensures r == if pf.verifies(ReissueOf(source, verified, pf).artifact) then Ok(ReissueOf(source, verified, pf))
            else Err(ResultInvalid)
  {
    var reported := LegacyUnauthenticatedMaterialFields(source, verified.hashVersion, pf.nfc);
    var texts := SortLongestFirst(reported);
    var current, claims := source, [];
    for i := 0 to |texts|
      invariant StripSource(source, verified.hashVersion, pf) == StripAll(Stripped(current, claims), texts[i..])
    {
      assert texts[i..][0] == texts[i] && texts[i..][1..] == texts[i + 1..];
      if texts[i] != "hashVersion" {
        var path := ParsePathLoop(texts[i]);
        var value := TryAt(current, path);
        if !value.Undefined? {
          claims := PutKey(claims, texts[i], value);
          current := DeleteAt(current, path);
        }
      }
    }
    assert texts[|texts|..] == [];
    claims := ClaimsOf(Stripped(current, claims));
    var fields := if current.Obj? then current.fields else [];
    var block := if claims == [] then None else Some(LegacyClaims(verified, claims));
    fields := Unsealed(fields, ReissueLineage(source, verified, pf, ""), block);
    var hash := ContentHash(Obj(fields), CURRENT_HASH_VERSION, pf);
    fields := Sealed(fields, ReissueLineage(source, verified, pf, hash), hash);
    if !pf.verifies(Obj(fields)) { return Err(ResultInvalid); }
    return Ok(Reissue(Obj(fields), claims));
  }

  /** What `artifact migrate --to` answers. */
  function Migrated(source: Value, to: int, pf: Platform): (r: Result<Reissue, MigrationError>)
  {
    if to != CURRENT_HASH_VERSION then Err(TargetUnsupported)
    else match VerifyMigrationSource(source, pf)
      case Err(e) => Err(e)
      case Ok(verified) =>
        if verified.hashVersion >= CURRENT_HASH_VERSION then Err(NotNeeded)
        else
          var reissue := ReissueOf(source, verified, pf);
          if pf.verifies(reissue.artifact) then Ok(reissue) else Err(ResultInvalid)
  }

  /** migrateArtifactToHashVersion. */
  method MigrateArtifactToHashVersion(source: Value, to: int, pf: Platform) returns (r: Result<Reissue, MigrationError>)
    ensures r == Migrated(source, to, pf)
    ensures r.Ok? <==>
              && to == 5 && VerifyMigrationSource(source, pf).Ok?
              && VerifyMigrationSource(source, pf).value.hashVersion < 5
              && pf.verifies(ReissueOf(source, VerifyMigrationSource(source, pf).value, pf).artifact)
    ensures r.Ok? ==> r.value == ReissueOf(source, VerifyMigrationSource(source, pf).value, pf)
  {
    if to != CURRENT_HASH_VERSION { return Err(TargetUnsupported); }
    var verified := VerifyMigrationSource(source, pf);
    if verified.Err? { return Err(verified.error); }
    if verified.value.hashVersion >= CURRENT_HASH_VERSION { return Err(NotNeeded); }
    r := SealFromVerifiedSource(source, verified.value, pf);
  }
}
