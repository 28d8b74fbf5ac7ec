/** The hash versions 1 to 5: what each excludes and normalises, and what the version an artifact declares decides. */
module HashVersions {
  import opened Common
  import opened Json
  import opened Canonical

  const CURRENT_HASH_VERSION: int := 5
  const MIN_HASH_VERSION: int := 1
  /** The mode without exclusions (Number.MAX_SAFE_INTEGER); not a version an artifact may declare. */
  const UNEXCLUDED_FORM: int := 9007199254740991

  const SEMANTIC_EXCLUSIONS: seq<string> :=
    ["contentHash", "artifactId", "planId", "lineage", "createdAt", "rpcUrl", "rpcHost", "latencyMs", "indexedAt",
     "file_path", "file_mtime_ms", "hardkasVersion", "hashVersion", "parentArtifactId", "signedId", "deployedAt",
     "tracePath", "receiptPath", "events", "status", "sourceSignedId", "submittedAt", "confirmedAt", "dagContext",
     "executionId", "signatureMetadata"]

  predicate SemanticExclusion(key: string)
  {
    key in SEMANTIC_EXCLUSIONS
  }

  const V4_SEMANTIC_EXCLUSIONS: seq<string> :=
    ["contentHash", "artifactId", "planId", "signedId", "hashVersion", "filePath", "file_path", "workspacePath",
     "debug", "logs", "uiHints", "cache", "lastViewedAt", "createdAt", "events", "status", "submittedAt",
     "confirmedAt", "dagContext", "executionId", "deployedAt", "tracePath", "receiptPath", "sourceSignedId",
     "signatureMetadata", "rpcHost", "rpcUrl", "latencyMs", "indexedAt", "file_mtime_ms", "hardkasVersion"]

  predicate V4Exclusion(key: string)
  {
    key in V4_SEMANTIC_EXCLUSIONS
  }

  const V5_UNAUTHENTICATED: seq<string> :=
    ["createdAt", "submittedAt", "confirmedAt", "deployedAt", "executionId", "tracePath", "receiptPath", "filePath",
     "file_path", "workspacePath", "debug", "logs", "uiHints", "cache", "lastViewedAt", "indexedAt",
     "file_mtime_ms", "latencyMs", "rpcHost", "rpcUrl", "hardkasVersion", "signatureMetadata"]

  predicate V5Unauthenticated(key: string)
  {
    key in V5_UNAUTHENTICATED
  }

  predicate V5DerivedLabel(key: string)
  {
    key in ["planId", "signedId"]
  }

  const STRICT_PATH_KEYS: seq<string> :=
    ["file_path", "sandboxSnapshotPath", "receiptPath", "tracePath", "outputPath", "artifactPath", "workspacePath",
     "relativePath", "absolutePath"]

  predicate StrictPathKey(key: string)
  {
    key in STRICT_PATH_KEYS
  }

  /** Whether a key is excluded from the hash under `version`, given where it sits. */
  predicate Excluded(key: string, version: int, depth: nat, parent: Option<string>)
  {
    if version == UNEXCLUDED_FORM then false
    else if version >= 5 then
      if depth == 0 then key == "contentHash" || V5Unauthenticated(key) || V5DerivedLabel(key)
      else depth == 1 && parent == Some("lineage") && key == "artifactId"
    else if version >= 4 then V4Exclusion(key)
    else SemanticExclusion(key)
  }

  function ReplaceCrlf(s: string): (r: string)
  {
    if s == [] then []
    else if s[0] == '\r' && |s| > 1 && s[1] == '\n' then ['\n'] + ReplaceCrlf(s[2..])
    else [s[0]] + ReplaceCrlf(s[1..])
  }

  function ForwardSlashes(s: string): (r: string)
    ensures |r| == |s| && '\\' !in r
  {
    if s == [] then [] else [if s[0] == '\\' then '/' else s[0]] + ForwardSlashes(s[1..])
  }

  function NormalText(s: string, keyName: Option<string>, version: int, nfc: string -> string): (r: string)
  {
    if version < 3 then s
    else
      var n := ReplaceCrlf(nfc(s));
      if keyName.Some? && StrictPathKey(keyName.value) then ForwardSlashes(n) else n
  }

  function BigIntText(n: int, version: int): (r: string)
  {
    if version >= 2 then "n:" + IntText(n) else IntText(n)
  }

  /** The serializer's rules under a version; `nfc` is String.prototype.normalize("NFC"). */
  function RulesOf(version: int, nfc: string -> string): (r: Rules)
  {
    Rules((key: string, depth: nat, parent: Option<string>) => Excluded(key, version, depth, parent),
          (n: int) => BigIntText(n, version),
          (s: string, keyName: Option<string>) => NormalText(s, keyName, version, nfc))
  }

  /** canonicalStringify of an artifact: undefined at the root, and the mode without exclusions, are refused. */
  function CanonicalForm(v: Value, version: int, nfc: string -> string): (r: Option<string>)
  {
    if version == UNEXCLUDED_FORM || v.Undefined? then None else Some(Serialize(v, RulesOf(version, nfc), TOP))
  }

  /** The hash version an artifact declares: an integer from 1 to 5, never anything read as one. */
  function DeclaredVersion(v: Value): (r: Option<int>)
    ensures r.Some? ==> v.Obj? && MIN_HASH_VERSION <= r.value <= CURRENT_HASH_VERSION
    ensures r.Some? ==> Lookup(v.fields, "hashVersion") == Some(Num(IntText(r.value)))
  {
    match Member(v, "hashVersion")
    case Num(t) =>
      if t == "1" then Some(1) else if t == "2" then Some(2) else if t == "3" then Some(3)
      else if t == "4" then Some(4) else if t == "5" then Some(5) else None
    case _ => None
  }

  /** A version is declared by the number alone, 1 to 5: not by a text, and not by leaving it out. */
  lemma DeclaredVersionExact(v: Value, n: int)
    ensures DeclaredVersion(v) == Some(n) <==>
              v.Obj? && 1 <= n <= 5 && Lookup(v.fields, "hashVersion") == Some(Num(IntText(n)))
  {
    DigitTexts();
  }

  lemma DigitTexts()
    ensures IntText(1) == "1" && IntText(2) == "2" && IntText(3) == "3" && IntText(4) == "4" && IntText(5) == "5"
  {
  }

  lemma HashVersionKept()
    ensures !Excluded("hashVersion", 5, 0, None)
  {
    assert !V5Unauthenticated("hashVersion");
  }

  lemma HashVersionDropped(version: int)
    requires version < 5
    ensures Excluded("hashVersion", version, 0, None)
  {
    assert V4_SEMANTIC_EXCLUSIONS[4] == "hashVersion" && SEMANTIC_EXCLUSIONS[12] == "hashVersion";
  }

  /** No artifact that declares version 5 has the canonical form of one that declares an earlier version. */
  lemma VersionsSeparated(a: Value, b: Value, nfc: string -> string)
    requires WellFormed(a) && WellFormed(b)
    requires DeclaredVersion(a) == Some(5)
    requires DeclaredVersion(b).Some? && DeclaredVersion(b).value < 5
    ensures CanonicalForm(a, 5, nfc) != CanonicalForm(b, DeclaredVersion(b).value, nfc)
  {
    hide Normalize, V4Exclusion, SemanticExclusion, V5Unauthenticated, V5DerivedLabel, NormalText;
    var v := DeclaredVersion(b).value;
    var ra, rb := RulesOf(5, nfc), RulesOf(v, nfc);
    FormsDecideNormal(a, b, ra, rb, TOP, TOP);
    ObjectsNormalEqual(a.fields, b.fields, ra, rb, TOP);
    HashVersionKept();
    HashVersionDropped(v);
    assert ShownMember(a.fields, "hashVersion", ra, TOP).Some?;
    assert ShownMember(b.fields, "hashVersion", rb, TOP).None?;
  }

  /** Everything version 5 drops, version 4 dropped too. */
  lemma V5DropsWithinV4(key: string, depth: nat, parent: Option<string>)
    requires Excluded(key, 5, depth, parent)
    ensures Excluded(key, 4, depth, parent)
  {
  }
}
