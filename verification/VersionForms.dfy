/**
 * What each hash version keeps of a text and of a path, said without the functions that compute it: which characters of
 * a string are read, when a bigint prints as a string does, which paths are covered, and so exactly which replacements
 * of a string inside an artifact leave its canonical form alone.
 */
module VersionForms {
  import opened Common
  import opened Json
  import opened Canonical
  import opened Paths
  import opened HashVersions

  // ----- texts, by position

  /** A carriage return directly before a line feed. */
  predicate Skipped(s: string, i: nat)
  {
    i + 1 < |s| && s[i] == '\r' && s[i + 1] == '\n'
  }

  /** The positions that are read: all that are not skipped, ascending. */
  ghost predicate Positions(s: string, at: seq<nat>)
  {
    && (forall j :: 0 <= j < |at| ==> at[j] < |s| && !Skipped(s, at[j]))
    && (forall j, k :: 0 <= j < k < |at| ==> at[j] < at[k])
    && (forall i: nat :: i < |s| && !Skipped(s, i) ==> i in at)
  }

  /** A character as it is read: in a path, a backslash is a slash. */
  function ReadChar(c: char, path: bool): (r: char)
  {
    if path && c == '\\' then '/' else c
  }

  /** `t` is what is read of `s`, character by character. */
  ghost predicate ReadsAt(s: string, t: string, path: bool, at: seq<nat>)
  {
    Positions(s, at) && |at| == |t| && forall j :: 0 <= j < |t| ==> t[j] == ReadChar(s[at[j]], path)
  }

  ghost predicate Reads(s: string, t: string, path: bool)
  {
    exists at: seq<nat> :: ReadsAt(s, t, path, at)
  }

  /** After equal positions, the next one read is no later in one list than in the other. */
  lemma NextPosition(s: string, a: seq<nat>, b: seq<nat>, n: nat)
    requires Positions(s, a) && Positions(s, b) && n < |b| && n <= |a| && forall j :: 0 <= j < n ==> a[j] == b[j]
    ensures n < |a| && a[n] <= b[n]
  {
    var k :| 0 <= k < |a| && a[k] == b[n];
    assert k >= n;
  }

  lemma {:induction false} PositionsAgree(s: string, a: seq<nat>, b: seq<nat>, n: nat)
    requires Positions(s, a) && Positions(s, b) && n <= |b|
    ensures n <= |a| && forall j :: 0 <= j < n ==> a[j] == b[j]
  {
    hide Positions;
    if n > 0 {
      PositionsAgree(s, a, b, n - 1);
      NextPosition(s, a, b, n - 1);
      NextPosition(s, b, a, n - 1);
    }
  }

  /** There is one list of positions, so one text that is read. */
  lemma PositionsOne(s: string, a: seq<nat>, b: seq<nat>)
    requires Positions(s, a) && Positions(s, b)
    ensures a == b
  {
    hide Positions;
    PositionsAgree(s, a, b, |b|);
    PositionsAgree(s, b, a, |a|);
  }

  lemma ReadOnce(s: string, t: string, u: string, path: bool)
    requires Reads(s, t, path) && Reads(s, u, path)
    ensures t == u
  {
    hide Positions;
    var a :| ReadsAt(s, t, path, a);
    var b :| ReadsAt(s, u, path, b);
    PositionsOne(s, a, b);
  }

  /** Two texts that read alike. */
  ghost predicate ReadAlike(s: string, t: string, path: bool)
  {
    exists u :: Reads(s, u, path) && Reads(t, u, path)
  }

  /** The positions, moved on. */
  function Moved(at: seq<nat>, n: nat): (r: seq<nat>)
    ensures |r| == |at| && forall j :: 0 <= j < |at| ==> r[j] == at[j] + n
  {
    seq(|at|, j requires 0 <= j < |at| => at[j] + n)
  }

  /** Past the first characters, a position is skipped exactly when it is in what is left. */
  lemma SkippedShift(s: string, n: nat, i: nat)
    requires n <= i < |s|
    ensures Skipped(s, i) <==> Skipped(s[n..], i - n)
    ensures s[i] == s[n..][i - n]
  {
  }

  /** The positions of a text from those of the rest: one read, after one skipped or none. */
  lemma ReadsShift(s: string, n: nat, rest: seq<nat>)
    requires 1 <= n <= 2 && n <= |s| && Positions(s[n..], rest)
    requires (n == 2 <==> Skipped(s, 0)) && !Skipped(s, n - 1)
    ensures Positions(s, [n - 1] + Moved(rest, n))
  {
    hide Skipped;
    var at := [n - 1] + Moved(rest, n);
    forall j | 0 <= j < |at| ensures at[j] < |s| && !Skipped(s, at[j]) {
      if j > 0 { ShiftedWithin(s, n, rest, j - 1); }
    }
    forall j, k | 0 <= j < k < |at| ensures at[j] < at[k] {
      if j > 0 { assert at[j] == rest[j - 1] + n && at[k] == rest[k - 1] + n; }
        else { assert at[k] == rest[k - 1] + n; }
    }
    forall i: nat | i < |s| && !Skipped(s, i) ensures i in at {
      CoveredPosition(s, n, rest, i);
    }
  }

  lemma ShiftedWithin(s: string, n: nat, rest: seq<nat>, j: nat)
    requires n <= |s| && Positions(s[n..], rest) && j < |rest|
    ensures rest[j] + n < |s| && !Skipped(s, rest[j] + n)
  {
    hide Skipped;
    assert rest[j] < |s[n..]| && !Skipped(s[n..], rest[j]);
    SkippedShift(s, n, rest[j] + n);
  }

  lemma CoveredPosition(s: string, n: nat, rest: seq<nat>, i: nat)
    requires 1 <= n <= 2 && n <= |s| && Positions(s[n..], rest) && (n == 2 <==> Skipped(s, 0))
    requires i < |s| && !Skipped(s, i)
    ensures i in [n - 1] + Moved(rest, n)
  {
    hide Skipped;
    var at := [n - 1] + Moved(rest, n);
    if i >= n {
      SkippedShift(s, n, i);
      var j :| 0 <= j < |rest| && rest[j] == i - n;
      assert at[j + 1] == i;
    } else {
      assert i == n - 1 && at[0] == i;
    }
  }

  /** Reading one character, and then the rest. */
  lemma ReadsFirst(s: string, n: nat, rest: seq<nat>, t: string)
    requires 1 <= n <= 2 && n <= |s| && ReadsAt(s[n..], t, false, rest)
    requires (n == 2 <==> Skipped(s, 0)) && !Skipped(s, n - 1)
    ensures ReadsAt(s, [s[n - 1]] + t, false, [n - 1] + Moved(rest, n))
  {
    hide Skipped, Positions;
    ReadsShift(s, n, rest);
    var at, u := [n - 1] + Moved(rest, n), [s[n - 1]] + t;
    forall j | 0 <= j < |u| ensures at[j] < |s| && u[j] == ReadChar(s[at[j]], false) {
      if j > 0 {
        PositionsWithin(s[n..], rest, j - 1);
        assert at[j] == rest[j - 1] + n && s[at[j]] == s[n..][rest[j - 1]];
      }
    }
  }

  lemma PositionsWithin(s: string, at: seq<nat>, j: nat)
    requires Positions(s, at) && j < |at|
    ensures at[j] < |s|
  {
  }

  /** What replacing `\r\n` gives is what is read. */
  lemma {:induction false} CrlfReads(s: string) returns (at: seq<nat>)
    ensures ReadsAt(s, ReplaceCrlf(s), false, at)
  {
    if s == [] {
      at := [];
    } else {
      hide ReadsAt, Positions;
      var n := if Skipped(s, 0) then 2 else 1;
      var rest := CrlfReads(s[n..]);
      ReadsFirst(s, n, rest, ReplaceCrlf(s[n..]));
      at := [n - 1] + Moved(rest, n);
      assert ReplaceCrlf(s) == [s[n - 1]] + ReplaceCrlf(s[n..]);
    }
  }

  lemma {:induction false} SlashesAt(s: string, j: nat)
    requires j < |s|
    ensures |ForwardSlashes(s)| == |s| && ForwardSlashes(s)[j] == ReadChar(s[j], true)
  {
    if j > 0 { SlashesAt(s[1..], j - 1); }
  }

  predicate PathKey(key: Option<string>)
  {
    key.Some? && key.value in STRICT_PATH_KEYS
  }

  /** From version 3 a string is printed as what is read of its NFC form. */
  lemma NormalTextReads(s: string, key: Option<string>, version: int, nfc: string -> string)
    requires version >= 3
    ensures Reads(nfc(s), NormalText(s, key, version, nfc), PathKey(key))
  {
    hide ReplaceCrlf, Positions, ForwardSlashes;
    var at := CrlfReads(nfc(s));
    var n := ReplaceCrlf(nfc(s));
    forall j | 0 <= j < |n| ensures |ForwardSlashes(n)| == |n| && ForwardSlashes(n)[j] == ReadChar(n[j], true) {
      SlashesAt(n, j);
    }
    assert ReadsAt(nfc(s), NormalText(s, key, version, nfc), PathKey(key), at);
  }

  /** Two strings under a key look alike to a version. */
  ghost predicate TextsAlike(s: string, t: string, key: Option<string>, version: int, nfc: string -> string)
  {
    if version < 3 then s == t else ReadAlike(nfc(s), nfc(t), PathKey(key))
  }

  /**
   * Two strings have one form exactly when, under versions 1 and 2, they are equal, and from version 3, their NFC forms
   * agree once every carriage return directly before a line feed is left out and, under a path key, a backslash is read
   * as a slash.
   */
  lemma StringFormsExact(s: string, t: string, version: int, nfc: string -> string, pos: Pos)
    ensures Serialize(Str(s), RulesOf(version, nfc), pos) == Serialize(Str(t), RulesOf(version, nfc), pos) <==>
              TextsAlike(s, t, pos.keyName, version, nfc)
  {
    hide Reads, NormalText;
    var rules := RulesOf(version, nfc);
    FormsDecideNormal(Str(s), Str(t), rules, rules, pos, pos);
    TextsExact(s, t, pos.keyName, version, nfc);
  }

  lemma TextsExact(s: string, t: string, key: Option<string>, version: int, nfc: string -> string)
    ensures NormalText(s, key, version, nfc) == NormalText(t, key, version, nfc) <==>
              TextsAlike(s, t, key, version, nfc)
  {
    hide Reads;
    if version >= 3 {
      hide NormalText;
      var path, a, b := PathKey(key), NormalText(s, key, version, nfc), NormalText(t, key, version, nfc);
      NormalTextReads(s, key, version, nfc);
      NormalTextReads(t, key, version, nfc);
      if ReadAlike(nfc(s), nfc(t), path) {
        var u :| Reads(nfc(s), u, path) && Reads(nfc(t), u, path);
        ReadOnce(nfc(s), a, u, path);
        ReadOnce(nfc(t), b, u, path);
      }
    }
  }

  // ----- bigints

  lemma {:induction false} IntTextInjective(a: int, b: int)
    requires IntText(a) == IntText(b)
    ensures a == b
  {
    hide NatText, NatOf, Digit;
    assert a < 0 <==> IntText(a)[0] == '-';
    assert b < 0 <==> IntText(b)[0] == '-';
    if a < 0 && b < 0 {
      assert IntText(a)[1..] == NatText(-a) && IntText(b)[1..] == NatText(-b);
      NatRoundTrip(-a);
      NatRoundTrip(-b);
    } else if a >= 0 && b >= 0 {
      NatRoundTrip(a);
      NatRoundTrip(b);
    }
  }

  /** Two bigints have one form exactly when they are equal. */
  lemma BigIntFormsExact(m: int, n: int, version: int, nfc: string -> string, pos: Pos)
    ensures Serialize(BigInt(m), RulesOf(version, nfc), pos) == Serialize(BigInt(n), RulesOf(version, nfc), pos) <==>
              m == n
  {
    hide IntText;
    var rules := RulesOf(version, nfc);
    FormsDecideNormal(BigInt(m), BigInt(n), rules, rules, pos, pos);
    if BigIntText(m, version) == BigIntText(n, version) {
      assert version >= 2 ==> BigIntText(m, version)[2..] == IntText(m) && BigIntText(n, version)[2..] == IntText(n);
      IntTextInjective(m, n);
    }
  }

  /**
   * A bigint has the form of a string exactly when the string reads as its decimal text, after `n:` from version 2: the
   * marker tells a bigint from the string of its digits, not from the string of its marker and digits.
   */
  lemma BigIntLikeString(n: int, s: string, version: int, nfc: string -> string, pos: Pos)
    ensures Serialize(BigInt(n), RulesOf(version, nfc), pos) == Serialize(Str(s), RulesOf(version, nfc), pos) <==>
              if version < 2 then s == IntText(n)
              else if version < 3 then s == "n:" + IntText(n)
              else Reads(nfc(s), "n:" + IntText(n), PathKey(pos.keyName))
  {
    hide IntText, NormalText, Reads;
    var rules := RulesOf(version, nfc);
    FormsDecideNormal(BigInt(n), Str(s), rules, rules, pos, pos);
    if version >= 3 {
      NormalTextReads(s, pos.keyName, version, nfc);
      if Reads(nfc(s), "n:" + IntText(n), PathKey(pos.keyName)) {
        ReadOnce(nfc(s), "n:" + IntText(n), NormalText(s, pos.keyName, version, nfc), PathKey(pos.keyName));
      }
    } else {
      PlainText(s, pos.keyName, version, nfc);
    }
  }

  lemma PlainText(s: string, key: Option<string>, version: int, nfc: string -> string)
    requires version < 3
    ensures NormalText(s, key, version, nfc) == s
  {
  }

  // ----- paths

  /** The path starts with this key. */
  predicate StartsAt(path: Path, key: string)
  {
    path != [] && path[0] == Key(key)
  }

  /**
   * What a version covers. Version 5: every path but those below its own hash and labels and the operational fields,
   * all at the top level only, and below `lineage.artifactId`. Version 4 and the earlier ones: a path without a key of
   * their list, wherever it stands.
   */
  ghost predicate Covered(path: Path, version: int)
  {
    if version == 5 then
      && (forall key :: key in V5_UNAUTHENTICATED + ["contentHash", "planId", "signedId"] ==> !StartsAt(path, key))
      && !([Key("lineage"), Key("artifactId")] <= path)
    else
      forall i, key :: 0 <= i < |path| && path[i] == Key(key) ==>
        key !in (if version == 4 then V4_SEMANTIC_EXCLUSIONS else SEMANTIC_EXCLUSIONS)
  }

  lemma {:induction false} DeepCovered5(path: Path, depth: nat, parent: Option<string>, nfc: string -> string)
    requires depth > 0
    ensures Authenticated(Erased(path), RulesOf(5, nfc), depth, parent) <==>
              !(depth == 1 && parent == Some("lineage") && StartsAt(path, "artifactId"))
    decreases path
  {
    if path != [] {
      assert Erased(path)[1..] == Erased(path[1..]);
      DeepCovered5(path[1..], depth + 1, if path[0].Key? then Some(path[0].key) else None, nfc);
    }
  }

  lemma {:induction false} CoveredBelow4(path: Path, version: int, depth: nat, parent: Option<string>,
                                         nfc: string -> string)
    requires 1 <= version <= 4
    ensures Authenticated(Erased(path), RulesOf(version, nfc), depth, parent) <==> Covered(path, version)
    decreases path
  {
    hide Erased, Covered, V4_SEMANTIC_EXCLUSIONS, SEMANTIC_EXCLUSIONS;
    CoveredStep(path, version);
    if path != [] {
      ErasedTail(path);
      ErasedHead(path);
      CoveredBelow4(path[1..], version, depth + 1, if path[0].Key? then Some(path[0].key) else None, nfc);
    }
  }

  /** A path is covered when its first key is kept and the rest is covered. */
  lemma CoveredStep(path: Path, version: int)
    requires 1 <= version <= 4
    ensures path == [] ==> Covered(path, version)
    ensures path != [] ==>
              (Covered(path, version) <==>
                 && (path[0].Key? ==>
                       path[0].key !in (if version == 4 then V4_SEMANTIC_EXCLUSIONS else SEMANTIC_EXCLUSIONS))
                 && Covered(path[1..], version))
  {
    hide V4_SEMANTIC_EXCLUSIONS, SEMANTIC_EXCLUSIONS;
    if path != [] {
      assert forall i :: 0 < i < |path| ==> path[i] == path[1..][i - 1];
      assert forall i :: 0 <= i < |path[1..]| ==> path[1..][i] == path[i + 1];
    }
  }

  lemma ErasedHead(path: Path)
    requires path != []
    ensures Erased(path) != [] && Erased(path)[0] == if path[0].Key? then Some(path[0].key) else None
  {
  }

  lemma TopDropped(key: string)
    ensures Excluded(key, 5, 0, None) <==> key in V5_UNAUTHENTICATED + ["contentHash", "planId", "signedId"]
  {
    assert key in ["planId", "signedId"] <==> key == "planId" || key == "signedId";
    assert key in V5_UNAUTHENTICATED + ["contentHash", "planId", "signedId"] <==>
             key in V5_UNAUTHENTICATED || key in ["contentHash", "planId", "signedId"];
  }

  /** isAuthenticatedPath, version by version. */
  lemma CoveredExact(path: Path, version: int, nfc: string -> string)
    requires 1 <= version <= 5
    ensures Authenticated(Erased(path), RulesOf(version, nfc), 0, None) <==> Covered(path, version)
  {
    hide Erased;
    if version < 5 {
      CoveredBelow4(path, version, 0, None, nfc);
    } else if path != [] {
      ErasedTail(path);
      ErasedHead(path);
      DeepCovered5(path[1..], 1, if path[0].Key? then Some(path[0].key) else None, nfc);
      assert [Key("lineage"), Key("artifactId")] <= path <==>
               StartsAt(path, "lineage") && StartsAt(path[1..], "artifactId");
      if path[0].Key? { TopDropped(path[0].key); }
    }
  }

  // ----- replacing a string inside an artifact

  /** The last key on a path: what the strings at its end are normalised under, through any number of arrays. */
  ghost predicate LastKey(path: Path, key: Option<string>)
  {
    match key
    case None => forall i :: 0 <= i < |path| ==> path[i].Index?
    case Some(k) => exists i :: 0 <= i < |path| && path[i] == Key(k) && forall j :: i < j < |path| ==> path[j].Index?
  }

  lemma {:induction false} PosAtKey(path: Path, pos: Pos)
    ensures (PosAt(path, pos).keyName == pos.keyName && LastKey(path, None))
            || (PosAt(path, pos).keyName.Some? && LastKey(path, PosAt(path, pos).keyName))
    decreases path
  {
    if path != [] {
      var rest := path[1..];
      var inner := if path[0].Key? then InKey(pos, path[0].key) else InItem(pos);
      PosAtKey(rest, inner);
      assert forall i :: 0 < i < |path| ==> path[i] == rest[i - 1];
      var k := PosAt(path, pos).keyName;
      if LastKey(rest, None) && k == inner.keyName {
        if path[0].Key? { assert path[0] == Key(k.value); }
      } else {
        var i :| 0 <= i < |rest| && rest[i] == Key(k.value) && forall j :: i < j < |rest| ==> rest[j].Index?;
        assert path[i + 1] == Key(k.value);
      }
    }
  }

  lemma LastKeyOnce(path: Path, a: Option<string>, b: Option<string>)
    requires LastKey(path, a) && LastKey(path, b)
    ensures a == b
  {
  }

  /**
   * Replacing one string by another inside an artifact leaves its canonical form alone exactly when the version does
   * not cover the path, or reads the two alike under the last key on it.
   */
  lemma StringChangeExact(v: Value, path: Path, s: string, version: int, nfc: string -> string, key: Option<string>)
    requires WellFormed(v) && !v.Undefined? && Present(v, path) && At(v, path).Str? && 1 <= version <= 5
    requires LastKey(path, key)
    ensures !Replace(v, path, Str(s)).Undefined?
    ensures CanonicalForm(Replace(v, path, Str(s)), version, nfc) == CanonicalForm(v, version, nfc) <==>
              !Covered(path, version) || TextsAlike(s, At(v, path).s, key, version, nfc)
  {
    hide Covered, TextsAlike, Authenticated, Erased, LastKey, ShownAt, Serialize, PosAt, RulesOf, Replace;
    AuthenticatedPathExact(v, path, Str(s), RulesOf(version, nfc));
    CoveredExact(path, version, nfc);
    PosAtKey(path, TOP);
    LastKeyOnce(path, key, PosAt(path, TOP).keyName);
    TextsExact(s, At(v, path).s, key, version, nfc);
    ShownTexts(path, s, At(v, path).s, version, nfc);
    ReplaceIsThere(v, path, s);
  }

  lemma ReplaceIsThere(v: Value, path: Path, s: string)
    requires Present(v, path) && !v.Undefined?
    ensures !Replace(v, path, Str(s)).Undefined?
  {
  }

  lemma ShownTexts(path: Path, s: string, t: string, version: int, nfc: string -> string)
    ensures ShownAt(Str(s), path, RulesOf(version, nfc), TOP, false)
            == ShownAt(Str(t), path, RulesOf(version, nfc), TOP, false)
            <==> NormalText(s, PosAt(path, TOP).keyName, version, nfc)
                 == NormalText(t, PosAt(path, TOP).keyName, version, nfc)
  {
    hide NormalText, PosAt;
  }

  // ----- the versions beside one another

  /** The names version 4 dropped and version 5 authenticates at the top level. */
  const NEWLY_COVERED: seq<string> :=
    ["artifactId", "hashVersion", "events", "status", "dagContext", "sourceSignedId"]

  lemma NewIds()
    ensures "artifactId" !in V5_UNAUTHENTICATED && "hashVersion" !in V5_UNAUTHENTICATED
  {
  }

  lemma NewStates()
    ensures "events" !in V5_UNAUTHENTICATED && "status" !in V5_UNAUTHENTICATED
  {
  }

  lemma NewContexts()
    ensures "dagContext" !in V5_UNAUTHENTICATED && "sourceSignedId" !in V5_UNAUTHENTICATED
  {
  }

  lemma V4Names(key: string)
    ensures key in V4_SEMANTIC_EXCLUSIONS <==>
              || key in V5_UNAUTHENTICATED || key in NEWLY_COVERED
              || key == "contentHash" || key == "planId" || key == "signedId"
  {
  }

  /** Moving from version 4 to version 5 brings exactly these names under the hash, and takes none out of it. */
  lemma NewlyCoveredExact(key: string)
    ensures Excluded(key, 4, 0, None) && !Excluded(key, 5, 0, None) <==> key in NEWLY_COVERED
    ensures Excluded(key, 5, 0, None) ==> Excluded(key, 4, 0, None)
  {
    hide V4_SEMANTIC_EXCLUSIONS, V5_UNAUTHENTICATED;
    V4Names(key);
    TopDropped(key);
    NewIds();
    NewStates();
    NewContexts();
  }

  const LATER_DROPPED: seq<string> := ["filePath", "workspacePath", "debug", "logs", "uiHints", "cache", "lastViewedAt"]

  /** Version 4 drops what the earlier versions did, but for lineage and parentArtifactId, and these names besides. */
  lemma EarlierNames(key: string)
    ensures key in V4_SEMANTIC_EXCLUSIONS ==> key in SEMANTIC_EXCLUSIONS || key in LATER_DROPPED
    ensures key in SEMANTIC_EXCLUSIONS ==> key in V4_SEMANTIC_EXCLUSIONS || key in ["lineage", "parentArtifactId"]
    ensures key in LATER_DROPPED ==> key in V4_SEMANTIC_EXCLUSIONS
    ensures key in ["lineage", "parentArtifactId"] ==> key in SEMANTIC_EXCLUSIONS
  {
  }
}
