/**
 * The re-issue as an artifact of its own: what it holds under every key, the identity it verifies as, and that it is
 * the child of the source it was made from, for the walk to the root and, where the source's lineage is in order, for
 * the strict check of the link.
 */
module Provenance {
  import opened Common
  import opened Json
  import opened Canonical
  import opened Paths
  import opened HashVersions
  import opened LegacyFields
  import opened Prune
  import opened Migration
  import opened NonInterference
  import Exposure
  import opened Reissues
  import opened Identity
  import opened Resolver
  import opened Lineage
  import opened LineageChain
  import LineageProducer

  // ----- the re-issue is a well-formed artifact

  lemma {:induction false} AtWellFormed(v: Value, p: Path)
    requires WellFormed(v) && Present(v, p)
    ensures WellFormed(At(v, p))
    decreases p
  {
    if p != [] {
      match p[0]
      case Key(k) => AtWellFormed(Lookup(v.fields, k).value, p[1..]);
      case Index(i) => AtWellFormed(v.items[i], p[1..]);
    }
  }

  /** Body and claims hold well-formed values. */
  ghost predicate Sane(s: Stripped)
  {
    WellFormed(s.body) && DistinctKeys(s.claims) && AllWellFormed(s.claims)
  }

  lemma StripOneSane(s: Stripped, text: string)
    requires Sane(s)
    ensures Sane(StripOne(s, text))
  {
    hide ParsePath, DeleteAt, PutKey, WellFormed, AllWellFormed, Present, At;
    var path := ParsePath(text);
    var value := TryAt(s.body, path);
    if text != "hashVersion" && !value.Undefined? {
      AtWellFormed(s.body, path);
      DeleteAtWellFormed(s.body, path);
      PutWellFormed(s.claims, text, value);
    }
  }

  lemma {:induction false} StripAllSane(s: Stripped, texts: seq<string>)
    requires Sane(s)
    ensures Sane(StripAll(s, texts))
    decreases |texts|
  {
    hide StripOne, Sane;
    if texts != [] {
      StripOneSane(s, texts[0]);
      StripAllSane(StripOne(s, texts[0]), texts[1..]);
    }
  }

  lemma SortKeepsWellFormed(claims: seq<Pair<Value>>)
    requires DistinctKeys(claims) && AllWellFormed(claims)
    ensures WellFormed(Obj(SortByKey(claims)))
  {
    hide SortByKey;
    SortKeeps(claims);
    AscendingDistinct(SortByKey(claims));
    SortElements(claims);
    var r := SortByKey(claims);
    forall i | 0 <= i < |r| ensures WellFormed(r[i].val) {
      assert r[i] in r;
      var j :| 0 <= j < |claims| && claims[j] == r[i];
    }
  }

  lemma ClaimsBlockWellFormed(verified: VerifiedSource, claims: seq<Pair<Value>>)
    requires DistinctKeys(claims) && AllWellFormed(claims)
    ensures WellFormed(LegacyClaims(verified, claims))
  {
    hide SortByKey, AllWellFormed, IntText;
    SortKeepsWellFormed(claims);
    ClaimKeysDiffer();
  }

  lemma ClaimKeysDiffer()
    ensures "sourceHashVersion" != "sourceArtifactId" && "sourceHashVersion" != "verified"
            && "sourceHashVersion" != "note" && "sourceHashVersion" != "fields"
    ensures "sourceArtifactId" != "verified" && "sourceArtifactId" != "note" && "sourceArtifactId" != "fields"
    ensures "verified" != "note" && "verified" != "fields" && "note" != "fields"
  {
    assert |"sourceHashVersion"| == 17 && |"sourceArtifactId"| == 16 && |"verified"| == 8 && |"note"| == 4
           && |"fields"| == 6;
  }

  // ----- its members

  /** The re-issue in pieces: what stripping left, what it claims, the body that is hashed, and its hash. */
  datatype Pieces = Pieces(body: Value, claims: seq<Pair<Value>>, unsealed: seq<Pair<Value>>, hash: string)

  function PiecesOf(source: Value, verified: VerifiedSource, pf: Platform): (r: Pieces)
  {
    var s := StripSource(source, verified.hashVersion, pf);
    var claims := ClaimsOf(s);
    var block := if claims == [] then None else Some(LegacyClaims(verified, claims));
    var fields := if s.body.Obj? then s.body.fields else [];
    var unsealed := Unsealed(fields, ReissueLineage(source, verified, pf, ""), block);
    Pieces(s.body, claims, unsealed, ContentHash(Obj(unsealed), 5, pf))
  }

  lemma ClaimsSane(s: Stripped)
    requires Sane(s)
    ensures DistinctKeys(ClaimsOf(s)) && AllWellFormed(ClaimsOf(s))
  {
    hide PutKey, AllWellFormed, Lookup;
    if !(Member(s.body, "artifactId").Undefined? || Lookup(s.claims, "artifactId").Some?) {
      MemberWellFormed(s.body, "artifactId");
      PutWellFormed(s.claims, "artifactId", Member(s.body, "artifactId"));
    }
  }

  lemma StrippedSane(source: Value, version: int, pf: Platform)
    requires WellFormed(source)
    ensures Sane(StripSource(source, version, pf))
  {
    hide StripAll, SortLongestFirst, MaterialPaths, WellFormed;
    var start := Stripped(source, []);
    assert AllWellFormed(start.claims);
    StripAllSane(start, SortLongestFirst(RenderAll([], MaterialPaths(source, version, pf.nfc))));
  }

  /** What is hashed is well formed, and has neither labels nor an artifactId. */
  lemma UnsealedSane(source: Value, verified: VerifiedSource, pf: Platform)
    requires source.Obj? && WellFormed(source) && verified.hashVersion < 5 && CountsInNumbers(pf)
    ensures var p := PiecesOf(source, verified, pf);
            && p.body.Obj? && DistinctKeys(p.body.fields)
            && WellFormed(Obj(p.unsealed)) && Lookup(p.unsealed, "planId").None? && Lookup(p.unsealed, "signedId").None?
            && (forall k :: !Restamped(k) ==>
                  Lookup(p.unsealed, k)
                  == UnsealedMember(p.body.fields, ReissueLineage(source, verified, pf, ""),
                                    if p.claims == [] then None else Some(LegacyClaims(verified, p.claims)), k))
            && ReissueOf(source, verified, pf).artifact
               == Obj(Sealed(p.unsealed, ReissueLineage(source, verified, pf, p.hash), p.hash))
  {
    hide StripSource, Unsealed, Sealed, ReissueLineage, ContentHash, Lookup, LegacyClaims, WellFormed, CountsInNumbers,
         UnsealedMember, ClaimsOf;
    var p := PiecesOf(source, verified, pf);
    var lineage := ReissueLineage(source, verified, pf, "");
    var block := if p.claims == [] then None else Some(LegacyClaims(verified, p.claims));
    BodyShowsView(source, verified.hashVersion, pf, "");
    FieldsWellFormed(p.body);
    StrippedSane(source, verified.hashVersion, pf);
    ClaimsSane(StripSource(source, verified.hashVersion, pf));
    ClaimsBlockWellFormed(verified, p.claims);
    LineageWellFormed(source, verified, pf, "");
    UnsealedAllWellFormed(p.body.fields, lineage, block);
    forall k | !Restamped(k) ensures Lookup(p.unsealed, k) == UnsealedMember(p.body.fields, lineage, block, k) {
      UnsealedLookup(p.body.fields, lineage, block, k);
    }
    UnsealedUnlabelled(p.body.fields, lineage, block);
  }

  lemma UnsealedAllWellFormed(fields: seq<Pair<Value>>, lineage: Value, claims: Option<Value>)
    requires DistinctKeys(fields) && AllWellFormed(fields) && WellFormed(lineage)
             && (claims.Some? ==> WellFormed(claims.value))
    ensures WellFormed(Obj(Unsealed(fields, lineage, claims)))
  {
    hide PutKey, RemoveKey, Bare, WellFormed;
    BareWellFormed(fields);
    PutWellFormed(Bare(fields), "lineage", lineage);
    var withLineage := PutKey(Bare(fields), "lineage", lineage);
    RemoveWellFormed(withLineage, "legacyClaims");
    if claims.Some? { PutWellFormed(withLineage, "legacyClaims", claims.value); }
    var withClaims := match claims
                      case Some(c) => PutKey(withLineage, "legacyClaims", c)
                      case None => RemoveKey(withLineage, "legacyClaims");
    FiveIsWellFormed();
    PutWellFormed(withClaims, "hashVersion", Num("5"));
    ObjectWellFormed(Unsealed(fields, lineage, claims));
  }

  lemma ObjectWellFormed(fields: seq<Pair<Value>>)
    requires DistinctKeys(fields) && AllWellFormed(fields)
    ensures WellFormed(Obj(fields))
  {
  }

  lemma BareUnlabelled(fields: seq<Pair<Value>>)
    requires DistinctKeys(fields)
    ensures DistinctKeys(Bare(fields)) && Lookup(Bare(fields), "planId").None? && Lookup(Bare(fields), "signedId").None?
  {
    hide RemoveKey, Lookup;
    assert "planId" != "signedId" && "planId" != "contentHash" && "signedId" != "contentHash"
           && "planId" != "originalContentHash" && "signedId" != "originalContentHash";
    RemoveKeyLookup(fields, "artifactId");
    var f1 := if Member(Obj(fields), "artifactId").Undefined? then fields else RemoveKey(fields, "artifactId");
    RemoveKeyLookup(f1, "planId");
    var f2 := RemoveKey(f1, "planId");
    RemoveKeyLookup(f2, "signedId");
    var f3 := RemoveKey(f2, "signedId");
    RemoveKeyLookup(f3, "contentHash");
    RemoveKeyLookup(RemoveKey(f3, "contentHash"), "originalContentHash");
  }

  lemma UnsealedUnlabelled(fields: seq<Pair<Value>>, lineage: Value, claims: Option<Value>)
    requires DistinctKeys(fields)
    ensures Lookup(Unsealed(fields, lineage, claims), "planId").None?
    ensures Lookup(Unsealed(fields, lineage, claims), "signedId").None?
  {
    hide PutKey, RemoveKey, Bare, Lookup;
    assert "planId" != "lineage" && "planId" != "legacyClaims" && "planId" != "hashVersion"
           && "signedId" != "lineage" && "signedId" != "legacyClaims" && "signedId" != "hashVersion";
    BareUnlabelled(fields);
    PutKeyLookup(Bare(fields), "lineage", lineage);
    var withLineage := PutKey(Bare(fields), "lineage", lineage);
    RemoveKeyLookup(withLineage, "legacyClaims");
    if claims.Some? { PutKeyLookup(withLineage, "legacyClaims", claims.value); }
    var withClaims := match claims
                      case Some(c) => PutKey(withLineage, "legacyClaims", c)
                      case None => RemoveKey(withLineage, "legacyClaims");
    PutKeyLookup(withClaims, "hashVersion", Num("5"));
  }

  // ----- its identity and its parent

  /** The lineage block of a re-issue, member by member. */
  lemma BlockMembers(source: Value, verified: VerifiedSource, pf: Platform, own: string)
    requires CountsInNumbers(pf) && verified.hashVersion < 5
    ensures var l := ReissueLineage(source, verified, pf, own);
            && l.Obj? && WellFormed(l) && Truthy(l) && Lookup(l.fields, "parentArtifactId").Some?
            && Own(l) == Str(own) && ParentId(l) == Str(verified.artifactId)
            && RootId(l) == Str(InheritedRoot(source, verified)) && LineId(l) == Str(InheritedLine(source, verified))
            && Sequence(l) == Num(pf.plusOne(LastNumber(source)))
  {
    hide Lookup, CountsInNumbers, Hex64;
    LineageWellFormed(source, verified, pf, own);
    LineageKeysDiffer();
    var fs := ReissueLineage(source, verified, pf, own).fields;
    LookupAt(fs, 0);
    LookupAt(fs, 1);
    LookupAt(fs, 2);
    LookupAt(fs, 3);
    LookupAt(fs, 4);
  }

  /** A version-4 source's own lineage names a 64-digit hexadecimal under this field. */
  predicate HandsOn(source: Value, version: int, field: string)
  {
    var x := Member(LineageOf(source), field);
    version == 4 && x.Str? && Hex64(x.s)
  }

  /** The root a re-issue belongs to: the source's when its version authenticated one, else the source itself. */
  function InheritedRoot(source: Value, verified: VerifiedSource): (r: string)
  {
    if HandsOn(source, verified.hashVersion, "rootArtifactId") then RootId(LineageOf(source)).s else verified.artifactId
  }

  function InheritedLine(source: Value, verified: VerifiedSource): (r: string)
  {
    if HandsOn(source, verified.hashVersion, "lineageId") then LineId(LineageOf(source)).s
    else InheritedRoot(source, verified)
  }

  /** The number a sequence is counted on from. */
  function LastNumber(source: Value): (t: string)
  {
    var x := Sequence(LineageOf(source));
    if x.Num? then x.text else "0"
  }

  /** The re-issue is sealed: its members are those of the hashed body, its hash, its lineage and its label. */
  lemma ReissueSealed(source: Value, verified: VerifiedSource, pf: Platform)
    requires source.Obj? && WellFormed(source) && verified.hashVersion < 5
    requires CountsInNumbers(pf) && LineageProducer.HashesAreHex(pf)
    ensures var p, a := PiecesOf(source, verified, pf), ReissueOf(source, verified, pf).artifact;
            && LineageProducer.HasMembers(a, p.unsealed, ReissueLineage(source, verified, pf, p.hash), p.hash)
            && ContentHash(a, 5, pf) == p.hash && Hex64(p.hash)
            && DeclaredVersion(a) == Some(5) && CheckArtifactIdentity(a, pf) == Some(p.hash)
  {
    hide ReissueOf, PiecesOf, ReissueLineage, ContentHash, Lookup, WellFormed, CountsInNumbers, LegacyClaims,
         CheckArtifactIdentity, DeclaredVersion, Hex64, LineageProducer.HasMembers, BareMember, Normalize;
    var p, a := PiecesOf(source, verified, pf), ReissueOf(source, verified, pf).artifact;
    var before, after := ReissueLineage(source, verified, pf, ""), ReissueLineage(source, verified, pf, p.hash);
    UnsealedSane(source, verified, pf);
    BlockMembers(source, verified, pf, "");
    BlockMembers(source, verified, pf, p.hash);
    LineageProducer.SealedMembers(p.unsealed, after, p.hash);
    LineageOwnHidden(source, verified, pf, p.hash);
    UnsealedNames(source, verified, pf);
    LineageProducer.SealKeepsForm(p.unsealed, a, before, after, p.hash, pf);
    HashOf(source, verified, pf);
    HexIsText(p.hash);
    LineageProducer.SealedVerifies(a, p.unsealed, after, p.hash, pf);
  }

  lemma HexIsText(s: string)
    requires Hex64(s)
    ensures s != []
  {
  }

  lemma UnsealedNames(source: Value, verified: VerifiedSource, pf: Platform)
    requires source.Obj? && WellFormed(source) && verified.hashVersion < 5 && CountsInNumbers(pf)
    ensures var p := PiecesOf(source, verified, pf);
            && Lookup(p.unsealed, "lineage") == Some(ReissueLineage(source, verified, pf, ""))
            && Lookup(p.unsealed, "hashVersion") == Some(Num("5")) && Member(Obj(p.unsealed), "artifactId").Undefined?
  {
    hide StripSource, ReissueLineage, WellFormed, CountsInNumbers, LegacyClaims, ClaimsOf, Unsealed, ContentHash,
         Lookup;
    var p := PiecesOf(source, verified, pf);
    BodyShowsView(source, verified.hashVersion, pf, "");
    FieldsWellFormed(p.body);
    UnsealedHas(p.body.fields, ReissueLineage(source, verified, pf, ""),
                if p.claims == [] then None else Some(LegacyClaims(verified, p.claims)));
  }

  lemma UnsealedHas(fields: seq<Pair<Value>>, lineage: Value, claims: Option<Value>)
    requires DistinctKeys(fields)
    ensures var r := Unsealed(fields, lineage, claims);
            && Lookup(r, "lineage") == Some(lineage) && Lookup(r, "hashVersion") == Some(Num("5"))
            && Member(Obj(r), "artifactId").Undefined?
  {
    hide Unsealed, Lookup, BareMember;
    NonInterference.NamesDistinct();
    NoArtifactId(fields);
    UnsealedLookup(fields, lineage, claims, "lineage");
    UnsealedLookup(fields, lineage, claims, "hashVersion");
    UnsealedLookup(fields, lineage, claims, "artifactId");
  }

  lemma HashOf(source: Value, verified: VerifiedSource, pf: Platform)
    requires LineageProducer.HashesAreHex(pf)
    ensures var p := PiecesOf(source, verified, pf); p.hash == ContentHash(Obj(p.unsealed), 5, pf) && Hex64(p.hash)
  {
    hide Unsealed, StripSource, ClaimsOf, LegacyClaims, ReissueLineage, Hex64, Serialize;
  }

  lemma NoArtifactId(fields: seq<Pair<Value>>)
    requires DistinctKeys(fields)
    ensures BareMember(fields, "artifactId") == None || BareMember(fields, "artifactId") == Some(Undefined)
  {
  }

  /** A migration that issued an artifact, in its pieces. */
  lemma Issuing(source: Value, pf: Platform)
    requires Migrated(source, 5, pf).Ok?
    ensures VerifyMigrationSource(source, pf).Ok? && source.Obj?
    ensures var verified := VerifyMigrationSource(source, pf).value;
            && 1 <= verified.hashVersion < 5 && DeclaredVersion(source) == Some(verified.hashVersion)
            && Migrated(source, 5, pf).value == ReissueOf(source, verified, pf)
            && Member(source, "contentHash") == Str(verified.artifactId)
            && ContentHash(source, verified.hashVersion, pf) == verified.artifactId
  {
    hide ReissueOf, ContentHash;
  }

  /** The identity of the source an issued artifact was made from: its contentHash. */
  function SourceId(source: Value): (r: string)
  {
    var h := Member(source, "contentHash");
    if h.Str? then h.s else ""
  }

  /** Two artifacts of different kinds of version never share a hash that does not collide. */
  lemma ReissueIsNew(source: Value, pf: Platform)
    requires WellFormed(source) && CountsInNumbers(pf) && LineageProducer.HashesAreHex(pf)
    requires Migrated(source, 5, pf).Ok? && CollisionFree(Migrated(source, 5, pf).value.artifact, source, pf)
    ensures var a := Migrated(source, 5, pf).value.artifact;
            && DeclaredVersion(a) == Some(5) && ContentHash(a, 5, pf) != SourceId(source)
  {
    hide ReissueOf, PiecesOf, ReissueLineage, ContentHash, Lookup, WellFormed, CountsInNumbers, CheckArtifactIdentity,
         DeclaredVersion, Hex64, Migrated, VerifyMigrationSource, CanonicalForm;
    Issuing(source, pf);
    var verified := VerifyMigrationSource(source, pf).value;
    var a := ReissueOf(source, verified, pf).artifact;
    ReissueSealed(source, verified, pf);
    assert WellFormed(a) by { MembersWellFormed(a, source, verified, pf); }
    VersionsSeparated(a, source, pf.nfc);
  }

  lemma MembersWellFormed(a: Value, source: Value, verified: VerifiedSource, pf: Platform)
    requires var p := PiecesOf(source, verified, pf);
             LineageProducer.HasMembers(a, p.unsealed, ReissueLineage(source, verified, pf, p.hash), p.hash)
    ensures WellFormed(a) && a.Obj?
  {
    hide PiecesOf, ReissueLineage, Lookup, WellFormed, LineageProducer.LabelOf;
  }

  /**
   * An issued artifact is its source's child: it verifies as the hash it carries, and its lineage block names that
   * hash, the source's contentHash as its parent, the root and line the source's version authenticated (or else the
   * source), and the next number.
   */
  lemma ReissueIsChild(source: Value, pf: Platform)
    requires WellFormed(source) && CountsInNumbers(pf) && LineageProducer.HashesAreHex(pf)
    requires Migrated(source, 5, pf).Ok? && CollisionFree(Migrated(source, 5, pf).value.artifact, source, pf)
    ensures var a, was := Migrated(source, 5, pf).value.artifact, LineageOf(source);
            var l, version := LineageOf(a), DeclaredVersion(source).value;
            && Member(source, "contentHash") == Str(SourceId(source))
            && DeclaredVersion(a) == Some(5)
            && CheckArtifactIdentity(a, pf).Some? && Member(a, "contentHash") == Str(CheckArtifactIdentity(a, pf).value)
            && Own(l) == Member(a, "contentHash") && ParentId(l) == Member(source, "contentHash")
            && ParentReferenceOf(a) == Some(SourceId(source))
            && RootId(l) == (if HandsOn(source, version, "rootArtifactId") then RootId(was)
                             else Member(source, "contentHash"))
            && LineId(l) == (if HandsOn(source, version, "lineageId") then LineId(was) else RootId(l))
            && Sequence(l) == Num(pf.plusOne(if Sequence(was).Num? then Sequence(was).text else "0"))
  {
    hide ReissueOf, PiecesOf, ReissueLineage, ContentHash, WellFormed, CountsInNumbers, CheckArtifactIdentity,
         DeclaredVersion, Hex64, Migrated, VerifyMigrationSource, CanonicalForm, Lookup;
    Issuing(source, pf);
    var verified := VerifyMigrationSource(source, pf).value;
    var a, p := ReissueOf(source, verified, pf).artifact, PiecesOf(source, verified, pf);
    ReissueSealed(source, verified, pf);
    ReissueIsNew(source, pf);
    BlockMembers(source, verified, pf, p.hash);
    SealedBlock(a, p.unsealed, ReissueLineage(source, verified, pf, p.hash), p.hash);
    IdentityIsText(source, verified, pf);
    ReferenceIs(a, SourceId(source));
  }

  lemma SealedBlock(a: Value, fields: seq<Pair<Value>>, lineage: Value, hash: string)
    requires LineageProducer.HasMembers(a, fields, lineage, hash)
    ensures a.Obj? && LineageOf(a) == lineage && Member(a, "contentHash") == Str(hash)
  {
    hide Lookup, WellFormed, LineageProducer.LabelOf, LineageProducer.STAMPS;
  }

  lemma IdentityIsText(source: Value, verified: VerifiedSource, pf: Platform)
    requires VerifyMigrationSource(source, pf) == Ok(verified)
    ensures verified.artifactId != []
  {
    hide ContentHash, DeclaredVersion, Member;
  }

  lemma ReferenceIs(a: Value, id: string)
    requires LineageOf(a).Obj? && Lookup(LineageOf(a).fields, "parentArtifactId").Some?
    requires ParentId(LineageOf(a)) == Str(id) && id != [] && Own(LineageOf(a)) != Str(id)
    ensures ParentReferenceOf(a) == Some(id)
  {
    hide Lookup, Hex64;
  }

  /**
   * A store that holds the source gives the re-issue its parent exactly when every object that names the source's
   * identity verifies as it; what it gives verifies as the source's contentHash, and is the source when nothing else
   * names it.
   */
  lemma ReissueFindsSource(source: Value, pf: Platform, entries: seq<Entry>)
    requires WellFormed(source) && CountsInNumbers(pf) && LineageProducer.HashesAreHex(pf)
    requires Migrated(source, 5, pf).Ok? && CollisionFree(Migrated(source, 5, pf).value.artifact, source, pf)
    requires exists e :: e in entries && e.artifact == source
    ensures var id, a := SourceId(source), Migrated(source, 5, pf).value.artifact;
            var parent := ResolveParent(a, ParentLookup(None, Some(entries)), pf);
            && (parent.Found? <==> forall e :: e in entries && NamedBy(e.artifact, id, pf) ==>
                                     CheckArtifactIdentity(e.artifact, pf) == Some(id))
            && (parent.Found? ==> parent.id == id && CheckArtifactIdentity(parent.artifact, pf) == Some(id))
            && ((forall e :: e in entries && NamedBy(e.artifact, id, pf) ==> e.artifact == source) && parent.Found? ==>
                  parent.artifact == source)
  {
    hide ContentHash, WellFormed, CountsInNumbers, CheckArtifactIdentity, DeclaredVersion, Hex64, Migrated,
         CanonicalForm, Lookup, Answers, Answer, Claimants, NamedBy, ById, CollisionFree, LineageOf, Own, ParentId,
         RootId, LineId, Sequence, HandsOn, Member, ParentReferenceOf, LineageProducer.HashesAreHex;
    var id, a := SourceId(source), Migrated(source, 5, pf).value.artifact;
    ReissueIsChild(source, pf);
    SourceIsHex(source, pf);
    SourceNames(source, pf);
    var answer := Answer(entries, ById(id, pf), pf);
    ByIdExact(entries, id, pf, answer);
    if answer.Ok? {
      var f :| f in entries && f.path == answer.value.path && f.artifact == answer.value.artifact;
      LineageProducer.IdentityClaims(f.artifact, id, pf);
    }
  }

  lemma SourceIsHex(source: Value, pf: Platform)
    requires Migrated(source, 5, pf).Ok? && LineageProducer.HashesAreHex(pf)
    ensures Hex64(SourceId(source))
  {
    hide ReissueOf, Hex64, Serialize, DeclaredVersion;
    Issuing(source, pf);
  }

  lemma SourceNames(source: Value, pf: Platform)
    requires Migrated(source, 5, pf).Ok?
    ensures NamedBy(source, SourceId(source), pf)
  {
    hide ReissueOf, ContentHash, DeclaredVersion, Lookup, Migrated, VerifyMigrationSource;
    Issuing(source, pf);
  }

  // ----- every member of a re-issue

  /** The block that records what the source only claimed. */
  predicate RecordsClaims(c: Value, source: Value, version: int)
  {
    && Member(c, "sourceHashVersion") == Num(IntText(version))
    && Member(c, "sourceArtifactId") == Member(source, "contentHash")
    && Member(c, "verified") == Bool(false) && Member(c, "note") == Str(LEGACY_CLAIMS_NOTE)
  }

  lemma ClaimsBlockMembers(verified: VerifiedSource, claims: seq<Pair<Value>>, source: Value)
    requires Member(source, "contentHash") == Str(verified.artifactId)
    ensures RecordsClaims(LegacyClaims(verified, claims), source, verified.hashVersion)
  {
    hide SortByKey, IntText, Lookup, LEGACY_CLAIMS_NOTE;
    ClaimKeysDiffer();
    var fs := LegacyClaims(verified, claims).fields;
    LookupAt(fs, 0);
    LookupAt(fs, 1);
    LookupAt(fs, 2);
    LookupAt(fs, 3);
  }

  /** The members a re-issue does not take over from what stripping left. */
  const REBUILT: seq<string> :=
    ["contentHash", "hashVersion", "planId", "signedId", "artifactId", "originalContentHash", "legacyClaims", "lineage"]

  lemma RebuiltNames()
    ensures forall k :: k in REBUILT <==>
              || k == "contentHash" || k == "hashVersion" || k == "planId" || k == "signedId" || k == "artifactId"
              || k == "originalContentHash" || k == "legacyClaims" || k == "lineage"
  {
  }

  /**
   * Everything an issued artifact holds. It declares version 5 and its hash; it has the label of its schema, derived
   * from that hash, and no other; it has neither an artifactId nor an originalContentHash; what was claimed is
   * recorded, if anything was, as unverified claims of its source; and every other member is what stripping left.
   */
  ghost predicate IssuedFrom(a: Value, source: Value, version: int, body: Value, claims: seq<Pair<Value>>, hash: string)
  {
    && |hash| == 64 && Member(a, "contentHash") == Str(hash) && Member(a, "hashVersion") == Num("5")
    && Member(a, "planId")
       == (if Member(a, "schema") == Str("hardkas.txPlan") then Str("plan-" + hash[..16]) else Undefined)
    && Member(a, "signedId")
       == (if Member(a, "schema") == Str("hardkas.signedTx") then Str("signed-" + hash[..16]) else Undefined)
    && Member(a, "artifactId").Undefined? && Member(a, "originalContentHash").Undefined?
    && (claims == [] ==> Member(a, "legacyClaims").Undefined?)
    && (claims != [] ==> RecordsClaims(Member(a, "legacyClaims"), source, version))
    && (forall k :: k !in REBUILT ==> Member(a, k) == Member(body, k))
  }

  lemma ReissueHolds(source: Value, pf: Platform)
    requires WellFormed(source) && CountsInNumbers(pf) && LineageProducer.HashesAreHex(pf)
    requires Migrated(source, 5, pf).Ok?
    ensures DeclaredVersion(source).Some?
    ensures var a, claims := Migrated(source, 5, pf).value.artifact, Migrated(source, 5, pf).value.claims;
            var hash, version := ContentHash(a, 5, pf), DeclaredVersion(source).value;
            IssuedFrom(a, source, version, StripSource(source, version, pf).body, claims, hash)
  {
    hide ReissueOf, ReissueLineage, ContentHash, WellFormed, CountsInNumbers, CheckArtifactIdentity, LegacyClaims,
         DeclaredVersion, Migrated, VerifyMigrationSource, StripSource, Lookup, PiecesOf, Member, IssuedFrom,
         LineageProducer.HasMembers, Unsealed;
    Issuing(source, pf);
    var verified := VerifyMigrationSource(source, pf).value;
    var a, p := ReissueOf(source, verified, pf).artifact, PiecesOf(source, verified, pf);
    ReissueSealed(source, verified, pf);
    PiecesAre(source, verified, pf);
    BodyShowsView(source, verified.hashVersion, pf, "");
    FieldsWellFormed(p.body);
    ClaimsBlockMembers(verified, p.claims, source);
    var block := if p.claims == [] then None else Some(LegacyClaims(verified, p.claims));
    UnsealedHolds(p.body.fields, ReissueLineage(source, verified, pf, ""), block);
    SealedHolds(a, p.unsealed, ReissueLineage(source, verified, pf, p.hash), p.hash);
    assert p.body == Obj(p.body.fields);
    HoldsTogether(a, Obj(p.unsealed), source, verified.hashVersion, p.body, p.claims, block, p.hash);
  }

  lemma HoldsTogether(a: Value, r: Value, source: Value, version: int, body: Value, claims: seq<Pair<Value>>,
                      block: Option<Value>, hash: string)
    requires |hash| == 64 && Member(a, "contentHash") == Str(hash)
    requires Member(a, "planId") == (if Member(a, "schema") == Str("hardkas.txPlan") then Str("plan-" + hash[..16])
                                     else Undefined)
    requires Member(a, "signedId") == (if Member(a, "schema") == Str("hardkas.signedTx")
                                       then Str("signed-" + hash[..16]) else Undefined)
    requires forall k :: !Restamped(k) && k != "lineage" ==> Member(a, k) == Member(r, k)
    requires Member(r, "hashVersion") == Num("5") && Member(r, "artifactId").Undefined?
             && Member(r, "originalContentHash").Undefined?
    requires Member(r, "legacyClaims") == (match block case Some(c) => c case None => Undefined)
    requires forall k :: k !in REBUILT ==> Member(r, k) == Member(body, k)
    requires (claims == [] <==> block.None?) && (block.Some? ==> RecordsClaims(block.value, source, version))
    ensures IssuedFrom(a, source, version, body, claims, hash)
  {
    hide Member, RecordsClaims, REBUILT;
    RebuiltNames();
    NonInterference.NamesDistinct();
  }

  lemma UnsealedHolds(fields: seq<Pair<Value>>, lineage: Value, claims: Option<Value>)
    requires DistinctKeys(fields)
    ensures var r := Obj(Unsealed(fields, lineage, claims));
            && Member(r, "hashVersion") == Num("5") && Member(r, "artifactId").Undefined?
            && Member(r, "originalContentHash").Undefined?
            && Member(r, "legacyClaims") == (match claims case Some(c) => c case None => Undefined)
            && (forall k :: k !in REBUILT ==> Member(r, k) == Member(Obj(fields), k))
  {
    hide Unsealed, Lookup, BareMember, REBUILT;
    NonInterference.NamesDistinct();
    NoArtifactId(fields);
    RebuiltNames();
    UnsealedLookup(fields, lineage, claims, "hashVersion");
    UnsealedLookup(fields, lineage, claims, "artifactId");
    UnsealedLookup(fields, lineage, claims, "legacyClaims");
    UnsealedLookup(fields, lineage, claims, "originalContentHash");
    BareIs(fields, "originalContentHash");
    forall k | k !in REBUILT ensures Member(Obj(Unsealed(fields, lineage, claims)), k) == Member(Obj(fields), k) {
      UnsealedLookup(fields, lineage, claims, k);
      BareIs(fields, k);
    }
  }

  lemma PiecesAre(source: Value, verified: VerifiedSource, pf: Platform)
    ensures PiecesOf(source, verified, pf).body == StripSource(source, verified.hashVersion, pf).body
    ensures PiecesOf(source, verified, pf).claims == ReissueOf(source, verified, pf).claims
    ensures PiecesOf(source, verified, pf).body.Obj? ==>
              PiecesOf(source, verified, pf).unsealed
              == Unsealed(PiecesOf(source, verified, pf).body.fields, ReissueLineage(source, verified, pf, ""),
                          if PiecesOf(source, verified, pf).claims == [] then None
                          else Some(LegacyClaims(verified, PiecesOf(source, verified, pf).claims)))
  {
    hide StripSource, ClaimsOf, Unsealed, Sealed, ReissueLineage, LegacyClaims, ContentHash;
  }

  lemma BareIs(fields: seq<Pair<Value>>, k: string)
    ensures k != "artifactId" && k != "originalContentHash" ==> BareMember(fields, k) == Lookup(fields, k)
    ensures BareMember(fields, "originalContentHash") == None
  {
    hide Lookup;
  }

  lemma SealedHolds(a: Value, fields: seq<Pair<Value>>, lineage: Value, hash: string)
    requires LineageProducer.HasMembers(a, fields, lineage, hash) && |hash| == 64
    ensures Member(a, "contentHash") == Str(hash)
    ensures Member(a, "planId") == (if Member(a, "schema") == Str("hardkas.txPlan") then Str("plan-" + hash[..16])
                                    else Undefined)
    ensures Member(a, "signedId") == (if Member(a, "schema") == Str("hardkas.signedTx") then Str("signed-" + hash[..16])
                                      else Undefined)
    ensures forall k :: !Restamped(k) && k != "lineage" ==> Member(a, k) == Member(Obj(fields), k)
  {
    hide Lookup, WellFormed, LineageProducer.STAMPS;
    LineageProducer.StampsDiffer();
  }

  // ----- what stripping keeps

  predicate Scalar(v: Value)
  {
    !v.Obj? && !v.Arr?
  }

  lemma StripOneKeeps(s: Stripped, text: string, k: string, legacy: Rules)
    requires s.body.Obj? && WellFormed(s.body) && Exposure.Strippable(ParsePath(text), legacy)
    requires !legacy.excluded(k, 0, None) && Scalar(Member(s.body, k))
    ensures var t := StripOne(s, text).body; t.Obj? && WellFormed(t) && Member(t, k) == Member(s.body, k)
  {
    hide ParsePath, PutKey, Lookup, WellFormed, PlainPath;
    var p := ParsePath(text);
    if StripOne(s, text) != s {
      DeleteAtWellFormed(s.body, p);
      Exposure.DeleteKind(s.body, p);
      FieldsWellFormed(s.body);
      DeleteObjectShape(s.body.fields, p);
      if p[0] == Key(k) {
        assert |p| > 1;
        NothingBelowScalar(s.body, p, k);
      } else {
        DeleteElsewhere(s.body.fields, p, k);
      }
    }
  }

  lemma NothingBelowScalar(v: Value, p: Path, k: string)
    requires v.Obj? && |p| > 1 && p[0] == Key(k) && Scalar(Member(v, k))
    ensures TryAt(v, p) == Undefined
  {
    assert !Present(Member(v, k), p[1..]);
  }

  lemma {:induction false} StripAllKeeps(s: Stripped, texts: seq<string>, k: string, legacy: Rules)
    requires s.body.Obj? && WellFormed(s.body) && Exposure.AllStrippable(texts, legacy)
    requires !legacy.excluded(k, 0, None) && Scalar(Member(s.body, k))
    ensures Member(StripAll(s, texts).body, k) == Member(s.body, k)
    decreases |texts|
  {
    hide Exposure.Strippable, StripOne, WellFormed, Member;
    if texts != [] {
      assert Exposure.Strippable(ParsePath(texts[0]), legacy);
      StripOneKeeps(s, texts[0], k, legacy);
      assert forall i :: 0 <= i < |texts[1..]| ==> texts[1..][i] == texts[i + 1];
      StripAllKeeps(StripOne(s, texts[0]), texts[1..], k, legacy);
    }
  }

  /** A top-level text, number or flag under a key the source's version authenticates is taken over as it is. */
  lemma ScalarKept(source: Value, version: int, pf: Platform, k: string)
    requires source.Obj? && WellFormed(source) && version < 5
    requires !RulesOf(version, pf.nfc).excluded(k, 0, None) && Scalar(Member(source, k))
    ensures Member(StripSource(source, version, pf).body, k) == Member(source, k)
  {
    hide StripAll, RulesOf, Exposure.AllStrippable, WellFormed, Member, Exposure.StripTexts, StripSource;
    Exposure.StripTextsExact(source, version, pf);
    Exposure.StripSourceIs(source, version, pf);
    StripAllKeeps(Stripped(source, []), Exposure.StripTexts(source, version, pf), k, RulesOf(version, pf.nfc));
  }

  // ----- the link to the source

  /** The source's own lineage block is in order: its identity, and hexadecimal line and root ids. */
  predicate InOrder(source: Value)
  {
    var l := LineageOf(source);
    && Own(l) == Member(source, "contentHash")
    && LineId(l).Str? && Hex64(LineId(l).s) && RootId(l).Str? && Hex64(RootId(l).s)
  }

  lemma SchemaAuthenticated(pf: Platform)
    ensures !RulesOf(4, pf.nfc).excluded("schema", 0, None) && "schema" !in REBUILT
  {
    assert !V4Exclusion("schema");
  }

  lemma NetworkAuthenticated(pf: Platform)
    ensures !RulesOf(4, pf.nfc).excluded("networkId", 0, None) && "networkId" !in REBUILT
  {
    assert !V4Exclusion("networkId");
  }

  lemma ModeAuthenticated(pf: Platform)
    ensures !RulesOf(4, pf.nfc).excluded("mode", 0, None) && "mode" !in REBUILT
  {
    assert !V4Exclusion("mode");
  }

  /** A member the source's version authenticates reaches the issued artifact as it is. */
  lemma ScalarIssued(source: Value, pf: Platform, k: string)
    requires WellFormed(source) && CountsInNumbers(pf) && LineageProducer.HashesAreHex(pf)
    requires Migrated(source, 5, pf).Ok? && DeclaredVersion(source).Some?
    requires !RulesOf(DeclaredVersion(source).value, pf.nfc).excluded(k, 0, None) && k !in REBUILT
    requires Scalar(Member(source, k))
    ensures Member(Migrated(source, 5, pf).value.artifact, k) == Member(source, k)
  {
    hide ContentHash, WellFormed, CountsInNumbers, DeclaredVersion, Migrated, StripSource, REBUILT, RecordsClaims,
         RulesOf, Member, VerifyMigrationSource, ReissueOf, Scalar;
    Issuing(source, pf);
    ReissueHolds(source, pf);
    ScalarKept(source, DeclaredVersion(source).value, pf, k);
  }

  lemma HexIsHash(v: Value)
    requires v.Str? && Hex64(v.s)
    ensures IsHash(v) && !Nullish(v)
  {
  }

  lemma SameSchema(a: Value, source: Value)
    requires Member(a, "schema") == Member(source, "schema") && Base(Member(source, "schema")) != []
    ensures ValidTransition(a, source)
  {
    hide Member, Base;
  }

  /**
   * A version-4 source whose lineage is in order, with texts for its schema, network and mode, and its re-issue make a
   * link that holds strictly, whenever counting on makes a greater number.
   */
  lemma ReissueLinks(source: Value, pf: Platform, ar: Arithmetic)
    requires WellFormed(source) && CountsInNumbers(pf) && LineageProducer.HashesAreHex(pf)
    requires Migrated(source, 5, pf).Ok? && CollisionFree(Migrated(source, 5, pf).value.artifact, source, pf)
    requires DeclaredVersion(source) == Some(4) && InOrder(source) && Base(Member(source, "schema")) != []
    requires Member(source, "networkId").Str? && Member(source, "mode").Str?
    requires var n := Sequence(LineageOf(source));
             n.Undefined? || (n.Num? && !ar.lessEqual(Num(pf.plusOne(n.text)), n))
    ensures LinkHolds(Migrated(source, 5, pf).value.artifact, source, true, ar)
  {
    hide ContentHash, WellFormed, CountsInNumbers, CheckArtifactIdentity, DeclaredVersion, Hex64, Migrated,
         CollisionFree, Base, ValidTransition, Truthy, Linked, LinkHolds, Member, LineageOf, Own, LineId, RootId,
         ParentId, Sequence, InOrder;
    var a := Migrated(source, 5, pf).value.artifact;
    SameLine(source, pf);
    SameScalars(source, pf);
    SameSchema(a, source);
    Issuing(source, pf);
    ArtifactIsThere(source);
    BlocksLink(a, source, pf, ar);
    LinkHoldsExact(a, source, ar);
  }

  lemma SameScalars(source: Value, pf: Platform)
    requires WellFormed(source) && CountsInNumbers(pf) && LineageProducer.HashesAreHex(pf)
    requires Migrated(source, 5, pf).Ok? && DeclaredVersion(source) == Some(4) && Base(Member(source, "schema")) != []
    requires Member(source, "networkId").Str? && Member(source, "mode").Str?
    ensures var a := Migrated(source, 5, pf).value.artifact;
            && Member(a, "schema") == Member(source, "schema") && Member(a, "networkId") == Member(source, "networkId")
            && Member(a, "mode") == Member(source, "mode")
  {
    hide WellFormed, CountsInNumbers, DeclaredVersion, Migrated, Base, REBUILT, RulesOf, Member;
    SchemaIsText(source);
    SchemaAuthenticated(pf);
    NetworkAuthenticated(pf);
    ModeAuthenticated(pf);
    ScalarIssued(source, pf, "schema");
    ScalarIssued(source, pf, "networkId");
    ScalarIssued(source, pf, "mode");
  }

  lemma SameLine(source: Value, pf: Platform)
    requires WellFormed(source) && CountsInNumbers(pf) && LineageProducer.HashesAreHex(pf)
    requires Migrated(source, 5, pf).Ok? && CollisionFree(Migrated(source, 5, pf).value.artifact, source, pf)
    requires DeclaredVersion(source) == Some(4) && InOrder(source)
    ensures var l, was := LineageOf(Migrated(source, 5, pf).value.artifact), LineageOf(source);
            && Own(was).Str? && Hex64(Own(was).s)
            && Own(l) == Member(Migrated(source, 5, pf).value.artifact, "contentHash") && Own(l).Str? && Hex64(Own(l).s)
            && ParentId(l) == Own(was) != Own(l) && RootId(l) == RootId(was) && LineId(l) == LineId(was)
            && Sequence(l) == Num(pf.plusOne(if Sequence(was).Num? then Sequence(was).text else "0"))
  {
    hide ContentHash, WellFormed, CountsInNumbers, CheckArtifactIdentity, DeclaredVersion, Hex64, Migrated,
         CollisionFree, ParentReferenceOf, Member, LineageOf, Own, ParentId, Sequence;
    ReissueIsChild(source, pf);
    ReissueIsNew(source, pf);
    SourceIsHex(source, pf);
    OwnIsHex(source, pf);
  }

  /** Blocks with these members link. */
  lemma BlocksLink(a: Value, source: Value, pf: Platform, ar: Arithmetic)
    requires InOrder(source) && Own(LineageOf(source)).Str? && Hex64(Own(LineageOf(source)).s)
    requires var l, was := LineageOf(a), LineageOf(source);
             && Own(l) == Member(a, "contentHash") && Own(l).Str? && Hex64(Own(l).s)
             && ParentId(l) == Own(was) != Own(l) && RootId(l) == RootId(was) && LineId(l) == LineId(was)
             && Sequence(l) == Num(pf.plusOne(if Sequence(was).Num? then Sequence(was).text else "0"))
             && (Sequence(was).Undefined?
                 || (Sequence(was).Num? && !ar.lessEqual(Num(pf.plusOne(Sequence(was).text)), Sequence(was))))
    requires Member(a, "networkId") == Member(source, "networkId") && Member(a, "networkId").Str?
    requires Member(a, "mode") == Member(source, "mode") && Member(a, "mode").Str?
    requires ValidTransition(a, source)
    ensures Linked(a, source, ar) && Truthy(LineageOf(a))
  {
    hide Hex64, Truthy, IsHash, Member, LineageOf, Own, LineId, RootId, ParentId, Sequence, ValidTransition;
    HexIsHash(LineId(LineageOf(source)));
    HexIsHash(RootId(LineageOf(source)));
    HexIsHash(Own(LineageOf(source)));
    HexIsHash(Own(LineageOf(a)));
    LineageIsThere(source);
    LineageIsThere(a);
  }

  lemma OwnIsHex(source: Value, pf: Platform)
    requires WellFormed(source) && CountsInNumbers(pf) && LineageProducer.HashesAreHex(pf)
             && Migrated(source, 5, pf).Ok?
    ensures var a := Migrated(source, 5, pf).value.artifact;
            && Hex64(ContentHash(a, 5, pf)) && Member(a, "contentHash") == Str(ContentHash(a, 5, pf))
  {
    hide ContentHash, WellFormed, CountsInNumbers, Hex64, Migrated, VerifyMigrationSource, ReissueOf, PiecesOf,
         ReissueLineage, CheckArtifactIdentity, DeclaredVersion, LineageProducer.HasMembers;
    Issuing(source, pf);
    var verified := VerifyMigrationSource(source, pf).value;
    var p := PiecesOf(source, verified, pf);
    ReissueSealed(source, verified, pf);
    SealedBlock(ReissueOf(source, verified, pf).artifact, p.unsealed, ReissueLineage(source, verified, pf, p.hash),
                p.hash);
  }

  lemma SchemaIsText(source: Value)
    requires Base(Member(source, "schema")) != []
    ensures Member(source, "schema").Str?
  {
    hide Member;
  }

  lemma LineageIsThere(v: Value)
    requires Own(LineageOf(v)).Str?
    ensures Truthy(LineageOf(v))
  {
  }

  lemma ArtifactIsThere(v: Value)
    requires v.Obj?
    ensures Truthy(v)
  {
  }
}
