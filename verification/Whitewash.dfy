/**
 * Where the promise of a re-issue ends, on artifacts the migration does issue: path texts do not carry a key that holds
 * a separator, and version 3 does not authenticate the lineage sequence a re-issue counts on from.
 */
module Whitewash {
  import opened Common
  import opened Json
  import opened Canonical
  import opened Paths
  import opened HashVersions
  import opened LegacyFields
  import opened Prune
  import opened Migration
  import opened NonInterference
  import opened Exposure
  import opened Reissues

  /** An artifact with one more member. */
  function With(rest: seq<Pair<Value>>, k: string, x: Value): (v: Value)
  {
    Obj(rest + [Pair(k, x)])
  }

  lemma WithLookup(rest: seq<Pair<Value>>, k: string, x: Value, q: string)
    requires Lookup(rest, k).None?
    ensures Lookup(With(rest, k, x).fields, q) == if q == k then Some(x) else Lookup(rest, q)
  {
    AppendLookup(rest, k, x, q);
  }

  lemma WithWellFormed(rest: seq<Pair<Value>>, k: string, x: Value)
    requires WellFormed(Obj(rest)) && WellFormed(x) && Lookup(rest, k).None?
    ensures WellFormed(With(rest, k, x))
  {
    var fs := With(rest, k, x).fields;
    forall i, j | 0 <= i < j < |fs| ensures fs[i].key != fs[j].key {
      if j == |rest| { LookupAt(rest, i); }
    }
  }

  /** Members that differ in nothing the rules show give one form. */
  lemma WithForm(rest: seq<Pair<Value>>, k: string, x: Value, y: Value, rules: Rules)
    requires WellFormed(Obj(rest)) && WellFormed(x) && WellFormed(y) && Lookup(rest, k).None?
    requires rules.excluded(k, 0, None) || Shown(x, rules, InKey(TOP, k), true) == Shown(y, rules, InKey(TOP, k), true)
    ensures Serialize(With(rest, k, x), rules, TOP) == Serialize(With(rest, k, y), rules, TOP)
  {
    hide Lookup, Normalize, Serialize, With;
    var a, b := With(rest, k, x), With(rest, k, y);
    WithWellFormed(rest, k, x);
    WithWellFormed(rest, k, y);
    WithIsObject(rest, k, x);
    WithIsObject(rest, k, y);
    forall q ensures ShownMember(a.fields, q, rules, TOP) == ShownMember(b.fields, q, rules, TOP) {
      WithLookup(rest, k, x, q);
      WithLookup(rest, k, y, q);
    }
    ObjectsNormalEqual(a.fields, b.fields, rules, rules, TOP);
    FormsDecideNormal(a, b, rules, rules, TOP, TOP);
  }

  lemma WithIsObject(rest: seq<Pair<Value>>, k: string, x: Value)
    ensures With(rest, k, x).Obj?
  {
  }

  /** Such a pair of sources is verified together, and then migrated when the re-issues verify. */
  lemma VerifiedTogether(rest: seq<Pair<Value>>, k: string, x: Value, y: Value, version: int, pf: Platform)
    requires Lookup(rest, k).None? && k != "hashVersion" && k != "contentHash"
    requires k == "lineage" ==> Member(x, "artifactId") == Undefined && Member(y, "artifactId") == Undefined
    requires DeclaredVersion(With(rest, k, x)) == Some(version) && VerifyMigrationSource(With(rest, k, x), pf).Ok?
    requires ContentHash(With(rest, k, x), version, pf) == ContentHash(With(rest, k, y), version, pf)
    ensures DeclaredVersion(With(rest, k, y)) == Some(version)
    ensures VerifyMigrationSource(With(rest, k, y), pf) == VerifyMigrationSource(With(rest, k, x), pf)
  {
    hide ContentHash, Lookup, VerifyMigrationSource, DeclaredVersion;
    WithLookup(rest, k, x, "hashVersion");
    WithLookup(rest, k, y, "hashVersion");
    WithLookup(rest, k, x, "contentHash");
    WithLookup(rest, k, y, "contentHash");
    WithLookup(rest, k, x, "lineage");
    WithLookup(rest, k, y, "lineage");
    SameVerdict(With(rest, k, x), With(rest, k, y), version, pf);
  }

  lemma SameVerdict(a: Value, b: Value, version: int, pf: Platform)
    requires a.Obj? && b.Obj? && Member(a, "hashVersion") == Member(b, "hashVersion")
    requires Member(a, "contentHash") == Member(b, "contentHash")
    requires Member(Member(a, "lineage"), "artifactId") == Member(Member(b, "lineage"), "artifactId")
    requires DeclaredVersion(a) == Some(version) && ContentHash(a, version, pf) == ContentHash(b, version, pf)
    ensures DeclaredVersion(b) == Some(version) && VerifyMigrationSource(a, pf) == VerifyMigrationSource(b, pf)
  {
    hide ContentHash, Member;
  }

  /** The re-issue of a source, when its migration issues one. */
  ghost predicate Issued(source: Value, pf: Platform)
  {
    VerifyMigrationSource(source, pf).Ok?
      && pf.verifies(ReissueOf(source, VerifyMigrationSource(source, pf).value, pf).artifact)
  }

  /** The version-5 form of what a migration issues, apart from the record of claims. */
  ghost function IssuedForm(source: Value, pf: Platform): Option<string>
    requires Migrated(source, 5, pf).Ok?
  {
    CanonicalForm(WithoutClaims(Migrated(source, 5, pf).value.artifact), 5, pf.nfc)
  }

  lemma IssuedIsMigrated(source: Value, pf: Platform, version: int)
    requires Issued(source, pf) && DeclaredVersion(source) == Some(version) && version < 5
    ensures Migrated(source, 5, pf).Ok? && IssuedForm(source, pf) == ReissuedForm(source, pf)
  {
    hide ReissueOf, CanonicalForm, WithoutClaims, DeclaredVersion;
  }

  // ----- a separator in a key

  function Status(flag: bool): (v: Value)
  {
    Obj([Pair("status", Bool(flag))])
  }

  /** Metadata, which any schema admits, with a dot in a key and below it a field version 4 never authenticated. */
  function Metadata(flag: bool): (v: Value)
  {
    Obj([Pair("a.b", Status(flag))])
  }

  /** What the two versions drop of it. */
  ghost predicate DottedRules(r4: Rules, r5: Rules)
  {
    && !r4.excluded("metadata", 0, None) && !r5.excluded("metadata", 0, None)
    && !r4.excluded("a.b", 1, Some("metadata")) && !r5.excluded("a.b", 1, Some("metadata"))
    && r4.excluded("status", 2, Some("a.b")) && !r5.excluded("status", 2, Some("a.b"))
  }

  lemma MetadataKeptV4()
    ensures !V4Exclusion("metadata")
  {
  }

  lemma DottedKeptV4()
    ensures !V4Exclusion("a.b") && V4Exclusion("status")
  {
  }

  lemma MetadataKeptV5()
    ensures !V5Unauthenticated("metadata") && !V5DerivedLabel("metadata")
  {
  }

  lemma DottedRulesHold(pf: Platform)
    ensures DottedRules(RulesOf(4, pf.nfc), RulesOf(5, pf.nfc))
  {
    hide V4Exclusion, V5Unauthenticated, V5DerivedLabel, SemanticExclusion;
    MetadataKeptV4();
    DottedKeptV4();
    MetadataKeptV5();
  }

  lemma SortSingle(p: Pair<Norm>)
    ensures SortByKey([p]) == [p]
  {
    assert [p][1..] == [];
  }

  lemma OneFieldNormal(k: string, x: Value, rules: Rules, pos: Pos)
    requires x != Undefined
    ensures NormFields([Pair(k, x)], rules, pos)
            == if rules.excluded(k, pos.depth, pos.parent) then [] else [Pair(k, Normalize(x, rules, InKey(pos, k)))]
  {
    hide Normalize;
    var rest := [Pair(k, x)][1..];
    assert rest == [];
    assert NormFields(rest, rules, pos) == [];
  }

  lemma OneMemberNormal(k: string, x: Value, rules: Rules, pos: Pos)
    requires x != Undefined
    ensures Normalize(Obj([Pair(k, x)]), rules, pos)
            == Record(if rules.excluded(k, pos.depth, pos.parent) then []
                      else [Pair(k, Normalize(x, rules, InKey(pos, k)))])
  {
    hide NormFields;
    OneFieldNormal(k, x, rules, pos);
    SortSingle(Pair(k, Normalize(x, rules, InKey(pos, k))));
  }

  lemma MetadataForms(flag: bool, r4: Rules, r5: Rules)
    requires DottedRules(r4, r5)
    ensures Normalize(Metadata(flag), r4, InKey(TOP, "metadata")) == Record([Pair("a.b", Record([]))])
    ensures Normalize(Status(flag), r5, InKey(InKey(TOP, "metadata"), "a.b"))
            == Record([Pair("status", Lit(if flag then "true" else "false"))])
  {
    hide Normalize, SortByKey;
    var pos := InKey(TOP, "metadata");
    OneMemberNormal("a.b", Status(flag), r4, pos);
    OneMemberNormal("status", Bool(flag), r4, InKey(pos, "a.b"));
    OneMemberNormal("status", Bool(flag), r5, InKey(pos, "a.b"));
    FlagNormal(flag, r5, InKey(InKey(pos, "a.b"), "status"));
  }

  lemma MetadataWellFormed(flag: bool)
    ensures WellFormed(Metadata(flag))
  {
    assert WellFormed(Status(flag));
  }

  lemma FlagNormal(flag: bool, rules: Rules, pos: Pos)
    ensures Normalize(Bool(flag), rules, pos) == Lit(if flag then "true" else "false")
  {
  }

  lemma DottedPlainness()
    ensures PlainKey("metadata") && !PlainKey("a.b") && !Rebuilt("metadata")
  {
    assert "a.b"[1] == '.';
  }

  /** Version 5 sees a difference below the dotted key. */
  lemma MetadataDisagree(r4: Rules, r5: Rules)
    requires DottedRules(r4, r5)
    ensures !Agree(Metadata(true), Metadata(false), r4, r5, InKey(TOP, "metadata"))
  {
    hide Normalize, PlainKey, AgreeUnder, Agree;
    var pos := InKey(TOP, "metadata");
    DottedPlainness();
    assert Member(Metadata(true), "a.b") == Status(true) && Member(Metadata(false), "a.b") == Status(false);
    AgreeAtExposed(Metadata(true), Metadata(false), "a.b", r4, r5, pos);
    MetadataForms(true, r4, r5);
    MetadataForms(false, r4, r5);
    assert Pair("status", Lit("true")) != Pair("status", Lit("false"));
    AgreeByKey(Metadata(true), Metadata(false), r4, r5, pos);
  }

  lemma DottedDisagree(rest: seq<Pair<Value>>, r4: Rules, r5: Rules)
    requires DottedRules(r4, r5) && Lookup(rest, "metadata").None?
    ensures !AgreeUnder(With(rest, "metadata", Metadata(true)), With(rest, "metadata", Metadata(false)),
                        Key("metadata"), r4, r5, TOP)
  {
    hide Normalize, PlainKey, AgreeUnder, Agree, With, Lookup;
    var a, b := With(rest, "metadata", Metadata(true)), With(rest, "metadata", Metadata(false));
    DottedPlainness();
    WithIsObject(rest, "metadata", Metadata(true));
    WithIsObject(rest, "metadata", Metadata(false));
    WithLookup(rest, "metadata", Metadata(true), "metadata");
    WithLookup(rest, "metadata", Metadata(false), "metadata");
    MetadataDisagree(r4, r5);
    AgreeBelow(a, b, Key("metadata"), Metadata(true), Metadata(false), InKey(TOP, "metadata"), r4, r5, TOP);
  }

  /**
   * With a separator in a key the promise fails. Take any version-4 artifact that verifies and carries this metadata:
   * with the other flag it has the same version-4 form and verifies too, and when both re-issues verify both are
   * issued, with different version-5 content outside `legacyClaims`.
   */
  lemma SeparatorInKeyWhitewashes(rest: seq<Pair<Value>>, pf: Platform)
    requires WellFormed(Obj(rest)) && Lookup(rest, "metadata").None? && HexStable(pf.nfc) && CountsInNumbers(pf)
    requires DeclaredVersion(With(rest, "metadata", Metadata(true))) == Some(4)
    requires Issued(With(rest, "metadata", Metadata(true)), pf)
    requires VerifyMigrationSource(With(rest, "metadata", Metadata(false)), pf).Ok? ==>
               Issued(With(rest, "metadata", Metadata(false)), pf)
    ensures var a, b := With(rest, "metadata", Metadata(true)), With(rest, "metadata", Metadata(false));
            && CanonicalForm(a, 4, pf.nfc) == CanonicalForm(b, 4, pf.nfc)
            && Migrated(a, 5, pf).Ok? && Migrated(b, 5, pf).Ok?
            && IssuedForm(a, pf) != IssuedForm(b, pf)
  {
    hide DeclaredVersion, VerifyMigrationSource, HexStable, CountsInNumbers, RulesOf, Normalize, Serialize, Metadata,
         With, AgreeUnder, DottedRules, ReissueOf, Migrated, IssuedForm, ReissuedForm, WellFormed, Lookup;
    var a, b := With(rest, "metadata", Metadata(true)), With(rest, "metadata", Metadata(false));
    var r4, r5 := RulesOf(4, pf.nfc), RulesOf(5, pf.nfc);
    DottedRulesHold(pf);
    MetadataForms(true, r4, r5);
    MetadataForms(false, r4, r5);
    MetadataShown(r4, r5);
    MetadataWellFormed(true);
    MetadataWellFormed(false);
    WithForm(rest, "metadata", Metadata(true), Metadata(false), r4);
    MetadataIsNoStamp();
    VerifiedTogether(rest, "metadata", Metadata(true), Metadata(false), 4, pf);
    WithWellFormed(rest, "metadata", Metadata(true));
    WithWellFormed(rest, "metadata", Metadata(false));
    WithIsObject(rest, "metadata", Metadata(true));
    WithIsObject(rest, "metadata", Metadata(false));
    ReissuesAlikeExactly(a, b, 4, pf);
    DottedDisagree(rest, r4, r5);
    DottedPlainness();
    IssuedIsMigrated(a, pf, 4);
    IssuedIsMigrated(b, pf, 4);
  }

  lemma MetadataShown(r4: Rules, r5: Rules)
    requires DottedRules(r4, r5)
    ensures Shown(Metadata(true), r4, InKey(TOP, "metadata"), true)
            == Shown(Metadata(false), r4, InKey(TOP, "metadata"), true)
  {
    hide Normalize;
    MetadataForms(true, r4, r5);
    MetadataForms(false, r4, r5);
  }

  lemma MetadataIsNoStamp()
    ensures "metadata" != "hashVersion" && "metadata" != "contentHash" && "metadata" != "lineage"
  {
  }

  // ----- such artifacts

  const DRAFT_VERSION: string := "1.0.0-alpha"
  const ASSUMPTION: string := "hardkas.assumption.v1"

  /** The members every assumption artifact of the given hash version has. */
  function Assumption(version: string, h: string): (fields: seq<Pair<Value>>)
  {
    [Pair("contentHash", Str(h)), Pair("hashVersion", Num(version)), Pair("schema", Str(ASSUMPTION)),
     Pair("version", Str(DRAFT_VERSION)), Pair("hardkasVersion", Str("0.12.0")), Pair("networkId", Str("simnet")),
     Pair("mode", Str("simulator")), Pair("createdAt", Str("2026-01-01T00:00:00.000Z"))]
  }

  lemma AssumptionKeys(i: nat, j: nat, version: string, h: string)
    requires i < j < 8
    ensures Assumption(version, h)[i].key != Assumption(version, h)[j].key
  {
  }

  lemma AssumptionDistinct(version: string, h: string)
    ensures DistinctKeys(Assumption(version, h))
  {
    hide Assumption;
    AssumptionLength(version, h);
    forall i, j | 0 <= i < j < 8
      ensures Assumption(version, h)[i].key != Assumption(version, h)[j].key { AssumptionKeys(i, j, version, h); }
  }

  lemma AssumptionLength(version: string, h: string)
    ensures |Assumption(version, h)| == 8
  {
  }

  lemma AssumptionValues(version: string, h: string)
    requires NumberText(version)
    ensures forall i :: 0 <= i < |Assumption(version, h)| ==> WellFormed(Assumption(version, h)[i].val)
  {
  }

  lemma AssumptionHead(version: string, h: string)
    ensures Assumption(version, h)[0] == Pair("contentHash", Str(h))
            && Assumption(version, h)[1] == Pair("hashVersion", Num(version))
    ensures Assumption(version, h)[2] == Pair("schema", Str(ASSUMPTION))
            && Assumption(version, h)[3] == Pair("version", Str(DRAFT_VERSION))
  {
  }

  lemma AssumptionMembers(version: string, h: string)
    requires NumberText(version)
    ensures WellFormed(Obj(Assumption(version, h)))
    ensures Lookup(Assumption(version, h), "contentHash") == Some(Str(h))
            && Lookup(Assumption(version, h), "hashVersion") == Some(Num(version))
    ensures Lookup(Assumption(version, h), "schema") == Some(Str(ASSUMPTION))
            && Lookup(Assumption(version, h), "version") == Some(Str(DRAFT_VERSION))
  {
    hide Assumption, Lookup, NumberText;
    AssumptionLength(version, h);
    AssumptionDistinct(version, h);
    AssumptionValues(version, h);
    AssumptionHead(version, h);
    LookupAt(Assumption(version, h), 0);
    LookupAt(Assumption(version, h), 1);
    LookupAt(Assumption(version, h), 2);
    LookupAt(Assumption(version, h), 3);
  }

  lemma AssumptionLacks(version: string, h: string, k: string)
    requires k == "metadata" || k == "lineage"
    ensures Lookup(Assumption(version, h), k).None?
  {
    var fs := Assumption(version, h);
    forall i | 0 <= i < |fs| ensures fs[i].key != k { LacksAt(version, h, k, i); }
  }

  lemma LacksAt(version: string, h: string, k: string, i: nat)
    requires (k == "metadata" || k == "lineage") && i < 8
    ensures Assumption(version, h)[i].key != k
  {
  }

  lemma ContentHashDropped(version: int, pf: Platform)
    requires version == 3 || version == 4
    ensures RulesOf(version, pf.nfc).excluded("contentHash", 0, None)
  {
    assert V4_SEMANTIC_EXCLUSIONS[0] == "contentHash" && SEMANTIC_EXCLUSIONS[0] == "contentHash";
  }

  /** The declared hash is outside the form. */
  lemma AssumptionForm(version: string, h: string, g: string, k: string, x: Value, rules: Rules)
    requires NumberText(version) && WellFormed(x) && (k == "metadata" || k == "lineage")
             && rules.excluded("contentHash", 0, None)
    ensures Serialize(With(Assumption(version, h), k, x), rules, TOP)
            == Serialize(With(Assumption(version, g), k, x), rules, TOP)
  {
    hide Lookup, Normalize, Serialize, Assumption, NumberText, With, WellFormed;
    AssumptionMembers(version, h);
    AssumptionMembers(version, g);
    AssumptionLacks(version, h, k);
    AssumptionLacks(version, g, k);
    WithWellFormed(Assumption(version, h), k, x);
    WithWellFormed(Assumption(version, g), k, x);
    WithIsObject(Assumption(version, h), k, x);
    WithIsObject(Assumption(version, g), k, x);
    var a, b := With(Assumption(version, h), k, x), With(Assumption(version, g), k, x);
    forall q ensures ShownMember(a.fields, q, rules, TOP) == ShownMember(b.fields, q, rules, TOP) {
      AssumptionShown(version, h, g, k, x, q, rules);
    }
    FieldsOf(a);
    FieldsOf(b);
    ObjectsNormalEqual(a.fields, b.fields, rules, rules, TOP);
    FormsDecideNormal(a, b, rules, rules, TOP, TOP);
  }

  lemma FieldsOf(v: Value)
    requires v.Obj? && WellFormed(v)
    ensures DistinctKeys(v.fields)
  {
  }

  lemma AssumptionShown(version: string, h: string, g: string, k: string, x: Value, q: string, rules: Rules)
    requires Lookup(Assumption(version, h), k).None? && Lookup(Assumption(version, g), k).None?
             && rules.excluded("contentHash", 0, None)
    ensures var a, b := With(Assumption(version, h), k, x), With(Assumption(version, g), k, x);
            ShownMember(a.fields, q, rules, TOP) == ShownMember(b.fields, q, rules, TOP)
  {
    hide Lookup, Normalize, Assumption;
    WithLookup(Assumption(version, h), k, x, q);
    WithLookup(Assumption(version, g), k, x, q);
    if q != "contentHash" { AssumptionElsewhere(version, h, g, q); }
  }

  lemma AssumptionElsewhere(version: string, h: string, g: string, q: string)
    requires q != "contentHash"
    ensures Lookup(Assumption(version, h), q) == Lookup(Assumption(version, g), q)
  {
    hide Lookup;
    assert Assumption(version, h)[1..] == Assumption(version, g)[1..];
    LookupTail(Assumption(version, h), q);
    LookupTail(Assumption(version, g), q);
  }

  lemma LookupTail(fields: seq<Pair<Value>>, q: string)
    requires fields != [] && fields[0].key != q
    ensures Lookup(fields, q) == Lookup(fields[1..], q)
  {
  }

  /** The hash of an assumption artifact with one more member. */
  function AssumptionHash(version: string, declared: int, k: string, x: Value, pf: Platform): (h: string)
  {
    ContentHash(With(Assumption(version, ""), k, x), declared, pf)
  }

  /** An assumption artifact that declares its own hash. */
  function Declared(version: string, declared: int, k: string, x: Value, pf: Platform): (v: Value)
  {
    With(Assumption(version, AssumptionHash(version, declared, k, x, pf)), k, x)
  }

  lemma DeclaredDigits(v: Value, version: string, declared: int)
    requires (version == "4" && declared == 4) || (version == "3" && declared == 3)
    requires Member(v, "hashVersion") == Num(version)
    ensures DeclaredVersion(v) == Some(declared)
  {
    hide Member;
  }

  /** It verifies. */
  lemma AssumptionVerifies(version: string, declared: int, k: string, x: Value, pf: Platform)
    requires (version == "4" && declared == 4) || (version == "3" && declared == 3)
    requires WellFormed(x) && (k == "metadata" || k == "lineage") && Member(x, "artifactId") == Undefined
    requires AssumptionHash(version, declared, k, x, pf) != ""
    ensures DeclaredVersion(Declared(version, declared, k, x, pf)) == Some(declared)
    ensures VerifyMigrationSource(Declared(version, declared, k, x, pf), pf)
            == Ok(VerifiedSource(declared, AssumptionHash(version, declared, k, x, pf)))
  {
    hide Serialize, RulesOf, Assumption, Lookup, With, DeclaredVersion, NumberText, WellFormed;
    var h, v := AssumptionHash(version, declared, k, x, pf), Declared(version, declared, k, x, pf);
    DigitsAreNumbers();
    ContentHashDropped(declared, pf);
    AssumptionForm(version, h, "", k, x, RulesOf(declared, pf.nfc));
    AssumptionMembers(version, h);
    AssumptionLacks(version, h, k);
    AssumptionLacks(version, h, "lineage");
    StampNames();
    WithIsObject(Assumption(version, h), k, x);
    WithLookup(Assumption(version, h), k, x, "hashVersion");
    WithLookup(Assumption(version, h), k, x, "contentHash");
    WithLookup(Assumption(version, h), k, x, "lineage");
    DeclaredDigits(v, version, declared);
    SelfNamed(v, declared, h, pf);
  }

  lemma DigitsAreNumbers()
    ensures NumberText("3") && NumberText("4")
  {
  }

  lemma SelfNamed(v: Value, version: int, h: string, pf: Platform)
    requires DeclaredVersion(v) == Some(version) && h == ContentHash(v, version, pf) && h != ""
    requires Member(v, "contentHash") == Str(h) && Member(Member(v, "lineage"), "artifactId") == Undefined
    ensures VerifyMigrationSource(v, pf) == Ok(VerifiedSource(version, h))
  {
    hide Member, ContentHash, DeclaredVersion;
  }

  lemma StampNames()
    ensures "metadata" != "hashVersion" && "metadata" != "contentHash" && "lineage" != "hashVersion"
            && "lineage" != "contentHash"
  {
  }

  /** The other source: the same members, and the same declared hash, with the other flag. */
  function Twin(pf: Platform): (v: Value)
  {
    With(Assumption("4", AssumptionHash("4", 4, "metadata", Metadata(true), pf)), "metadata", Metadata(false))
  }

  /**
   * One such pair: assumption artifacts with schema and version, whose metadata differs in what version 4 never
   * authenticated. When their re-issues verify, the migration issues both, with different version-5 content.
   */
  lemma AssumptionWhitewashed(pf: Platform)
    requires HexStable(pf.nfc) && CountsInNumbers(pf) && AssumptionHash("4", 4, "metadata", Metadata(true), pf) != ""
    requires var verified := VerifiedSource(4, AssumptionHash("4", 4, "metadata", Metadata(true), pf));
             && pf.verifies(ReissueOf(Declared("4", 4, "metadata", Metadata(true), pf), verified, pf).artifact)
             && pf.verifies(ReissueOf(Twin(pf), verified, pf).artifact)
    ensures var a, b := Declared("4", 4, "metadata", Metadata(true), pf), Twin(pf);
            && Member(a, "schema") == Member(b, "schema") == Str(ASSUMPTION)
            && Member(a, "version") == Member(b, "version") == Str(DRAFT_VERSION)
            && CanonicalForm(a, 4, pf.nfc) == CanonicalForm(b, 4, pf.nfc)
            && Migrated(a, 5, pf).Ok? && Migrated(b, 5, pf).Ok? && IssuedForm(a, pf) != IssuedForm(b, pf)
  {
    hide HexStable, CountsInNumbers, RulesOf, Serialize, Normalize, Assumption, With, Lookup, CanonicalForm, Migrated,
         ReissueOf, IssuedForm, VerifyMigrationSource, DeclaredVersion, Metadata, AssumptionHash, WellFormed,
         NumberText;
    MetadataWellFormed(true);
    MetadataNames(true);
    var h := AssumptionHash("4", 4, "metadata", Metadata(true), pf);
    var rest := Assumption("4", h);
    DigitsAreNumbers();
    AssumptionVerifies("4", 4, "metadata", Metadata(true), pf);
    AssumptionMembers("4", h);
    AssumptionLacks("4", h, "metadata");
    TwinVerifies(pf);
    SeparatorInKeyWhitewashes(rest, pf);
    SchemaMembers(rest, Metadata(true));
    SchemaMembers(rest, Metadata(false));
  }

  lemma TwinVerifies(pf: Platform)
    ensures VerifyMigrationSource(Twin(pf), pf).Ok? ==>
              VerifyMigrationSource(Twin(pf), pf).value
                == VerifiedSource(4, AssumptionHash("4", 4, "metadata", Metadata(true), pf))
  {
    hide AssumptionHash, ContentHash, Assumption, Lookup, With, NumberText, WellFormed, Metadata;
    var h := AssumptionHash("4", 4, "metadata", Metadata(true), pf);
    DigitsAreNumbers();
    AssumptionMembers("4", h);
    AssumptionLacks("4", h, "metadata");
    StampNames();
    WithIsObject(Assumption("4", h), "metadata", Metadata(false));
    WithLookup(Assumption("4", h), "metadata", Metadata(false), "hashVersion");
    WithLookup(Assumption("4", h), "metadata", Metadata(false), "contentHash");
    DeclaredDigits(Twin(pf), "4", 4);
  }

  lemma SchemaMembers(rest: seq<Pair<Value>>, x: Value)
    requires Lookup(rest, "metadata").None?
    ensures With(rest, "metadata", x).Obj?
    ensures Member(With(rest, "metadata", x), "schema") == Member(Obj(rest), "schema")
    ensures Member(With(rest, "metadata", x), "version") == Member(Obj(rest), "version")
  {
    hide Lookup;
    SchemaNames();
    WithLookup(rest, "metadata", x, "schema");
    WithLookup(rest, "metadata", x, "version");
  }

  lemma SchemaNames()
    ensures "schema" != "metadata" && "version" != "metadata" && "hashVersion" != "metadata"
    ensures "schema" != "lineage" && "version" != "lineage" && "hashVersion" != "lineage"
  {
  }

  lemma MetadataNames(flag: bool)
    ensures Member(Metadata(flag), "artifactId") == Undefined
  {
    assert [Pair("a.b", Status(flag))][1..] == [];
  }

  // ----- the sequence of version 3

  function Counted(t: string): (v: Value)
  {
    Obj([Pair("sequence", Num(t))])
  }

  lemma CountedIs(t: string)
    requires NumberText(t)
    ensures WellFormed(Counted(t)) && Member(Counted(t), "artifactId") == Undefined
            && Member(Counted(t), "sequence") == Num(t)
  {
    assert [Pair("sequence", Num(t))][1..] == [];
  }

  lemma LineageDroppedV3(pf: Platform)
    ensures RulesOf(3, pf.nfc).excluded("lineage", 0, None)
  {
    assert SEMANTIC_EXCLUSIONS[3] == "lineage";
  }

  /**
   * A version-3 source's lineage is outside its form, yet the re-issue counts its sequence on from it. Take any
   * verified version-3 artifact with a sequence and plain reports: with another sequence it has the same form and
   * verifies too, and when both are issued their version-5 forms agree exactly when the two sequences count on to one
   * number.
   */
  lemma V3SequenceUnauthenticated(rest: seq<Pair<Value>>, t: string, u: string, pf: Platform)
    requires WellFormed(Obj(rest)) && Lookup(rest, "lineage").None? && NumberText(t) && NumberText(u)
             && HexStable(pf.nfc) && CountsInNumbers(pf)
    requires DeclaredVersion(With(rest, "lineage", Counted(t))) == Some(3)
    requires PlainReport(With(rest, "lineage", Counted(t)), 3, pf)
             && PlainReport(With(rest, "lineage", Counted(u)), 3, pf)
    requires Issued(With(rest, "lineage", Counted(t)), pf)
    requires VerifyMigrationSource(With(rest, "lineage", Counted(u)), pf).Ok? ==>
               Issued(With(rest, "lineage", Counted(u)), pf)
    ensures var a, b := With(rest, "lineage", Counted(t)), With(rest, "lineage", Counted(u));
            && CanonicalForm(a, 3, pf.nfc) == CanonicalForm(b, 3, pf.nfc)
            && Migrated(a, 5, pf).Ok? && Migrated(b, 5, pf).Ok?
            && (IssuedForm(a, pf) == IssuedForm(b, pf) <==> pf.plusOne(t) == pf.plusOne(u))
  {
    hide DeclaredVersion, VerifyMigrationSource, HexStable, CountsInNumbers, RulesOf, Normalize, Serialize, With,
         NumberText, PlainReport, ReissueOf, Migrated, IssuedForm, ReissuedForm, WellFormed, Lookup, Counted;
    var a, b := With(rest, "lineage", Counted(t)), With(rest, "lineage", Counted(u));
    CountedIs(t);
    CountedIs(u);
    LineageDroppedV3(pf);
    WithForm(rest, "lineage", Counted(t), Counted(u), RulesOf(3, pf.nfc));
    StampNames();
    VerifiedTogether(rest, "lineage", Counted(t), Counted(u), 3, pf);
    WithWellFormed(rest, "lineage", Counted(t));
    WithWellFormed(rest, "lineage", Counted(u));
    WithIsObject(rest, "lineage", Counted(t));
    WithIsObject(rest, "lineage", Counted(u));
    PlainReissuesAlikeExactly(a, b, 3, pf);
    WithLookup(rest, "lineage", Counted(t), "lineage");
    WithLookup(rest, "lineage", Counted(u), "lineage");
    IssuedIsMigrated(a, pf, 3);
    IssuedIsMigrated(b, pf, 3);
  }

  lemma PlainNamesOfAssumption()
    ensures PlainKey("contentHash") && PlainKey("hashVersion") && PlainKey("schema") && PlainKey("version")
    ensures PlainKey("hardkasVersion") && PlainKey("networkId") && PlainKey("mode") && PlainKey("createdAt")
    ensures PlainKey("lineage") && PlainKey("sequence")
  {
  }

  lemma CountedIsPlain(h: string, t: string)
    ensures PlainKeys(With(Assumption("3", h), "lineage", Counted(t)))
  {
    hide PlainKey;
    PlainNamesOfAssumption();
    assert PlainKeys(Counted(t));
  }

  lemma PlainKeysReportPlain(v: Value, version: int, pf: Platform)
    requires PlainKeys(v)
    ensures PlainReport(v, version, pf)
  {
    hide PlainKeys, PlainPath, RulesOf, Material;
    forall p | Reported(v, p, version, pf) ensures PlainPath(p) {
      MaterialUnauthenticated(v, p, RulesOf(version, pf.nfc), RulesOf(5, pf.nfc), TOP);
      PlainKeysPaths(v, p);
    }
  }

  /** The same members and the same declared hash, with another sequence. */
  function Recounted(t: string, u: string, pf: Platform): (v: Value)
  {
    With(Assumption("3", AssumptionHash("3", 3, "lineage", Counted(t), pf)), "lineage", Counted(u))
  }

  /** One such pair: version-3 assumption artifacts with schema and version that differ in their sequence. */
  lemma AssumptionRecounted(t: string, u: string, pf: Platform)
    requires NumberText(t) && NumberText(u) && HexStable(pf.nfc) && CountsInNumbers(pf)
    requires AssumptionHash("3", 3, "lineage", Counted(t), pf) != ""
    requires var verified := VerifiedSource(3, AssumptionHash("3", 3, "lineage", Counted(t), pf));
             && pf.verifies(ReissueOf(Declared("3", 3, "lineage", Counted(t), pf), verified, pf).artifact)
             && pf.verifies(ReissueOf(Recounted(t, u, pf), verified, pf).artifact)
    ensures var a, b := Declared("3", 3, "lineage", Counted(t), pf), Recounted(t, u, pf);
            && CanonicalForm(a, 3, pf.nfc) == CanonicalForm(b, 3, pf.nfc)
            && Migrated(a, 5, pf).Ok? && Migrated(b, 5, pf).Ok?
            && (IssuedForm(a, pf) == IssuedForm(b, pf) <==> pf.plusOne(t) == pf.plusOne(u))
  {
    hide HexStable, CountsInNumbers, RulesOf, Serialize, Normalize, Assumption, With, Lookup, CanonicalForm, Migrated,
         ReissueOf, IssuedForm, VerifyMigrationSource, DeclaredVersion, Counted, AssumptionHash, WellFormed,
         NumberText, PlainReport, PlainKeys;
    CountedIs(t);
    var h := AssumptionHash("3", 3, "lineage", Counted(t), pf);
    DigitsAreNumbers();
    AssumptionVerifies("3", 3, "lineage", Counted(t), pf);
    AssumptionMembers("3", h);
    AssumptionLacks("3", h, "lineage");
    CountedIsPlain(h, t);
    CountedIsPlain(h, u);
    PlainKeysReportPlain(With(Assumption("3", h), "lineage", Counted(t)), 3, pf);
    PlainKeysReportPlain(With(Assumption("3", h), "lineage", Counted(u)), 3, pf);
    RecountedVerifies(t, u, pf);
    V3SequenceUnauthenticated(Assumption("3", h), t, u, pf);
  }

  lemma RecountedVerifies(t: string, u: string, pf: Platform)
    ensures VerifyMigrationSource(Recounted(t, u, pf), pf).Ok? ==>
              VerifyMigrationSource(Recounted(t, u, pf), pf).value
                == VerifiedSource(3, AssumptionHash("3", 3, "lineage", Counted(t), pf))
  {
    hide AssumptionHash, ContentHash, Assumption, Lookup, With, NumberText, WellFormed, Counted;
    var h := AssumptionHash("3", 3, "lineage", Counted(t), pf);
    DigitsAreNumbers();
    AssumptionMembers("3", h);
    AssumptionLacks("3", h, "lineage");
    StampNames();
    WithIsObject(Assumption("3", h), "lineage", Counted(u));
    WithLookup(Assumption("3", h), "lineage", Counted(u), "hashVersion");
    WithLookup(Assumption("3", h), "lineage", Counted(u), "contentHash");
    DeclaredDigits(Recounted(t, u, pf), "3", 3);
  }
}
