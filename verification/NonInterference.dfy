/** What a re-issue may depend on: only what the source version authenticated. */
module NonInterference {
  import opened Common
  import opened Json
  import opened Canonical
  import opened Paths
  import opened HashVersions
  import opened LegacyFields
  import opened Prune
  import opened Migration

  /** The material paths of a source, said one path at a time. */
  ghost predicate Reported(v: Value, p: Path, version: int, pf: Platform)
  {
    Material(v, p, RulesOf(version, pf.nfc), RulesOf(5, pf.nfc), TOP)
  }

  /** Every key on a reported path can be carried by a path text. */
  ghost predicate PlainReport(v: Value, version: int, pf: Platform)
  {
    forall p :: Reported(v, p, version, pf) ==> PlainPath(p)
  }

  /**
   * The state of the stripping loop: the body is the source with the paths `done` deleted, and the claims are exactly
   * the source's values at those paths.
   */
  ghost predicate StripState(v: Value, version: int, pf: Platform, s: Stripped, done: seq<Path>)
  {
    && s.body == Pruned(v, done)
    && (forall p :: p in done ==> Reported(v, p, version, pf) && p != [Key("hashVersion")])
    && DistinctKeys(s.claims)
    && (forall p :: p in done ==> Present(v, p) && Lookup(s.claims, Render(p)) == Some(At(v, p)))
    && (forall k :: Lookup(s.claims, k).Some? ==> exists p :: p in done && Render(p) == k)
  }

  lemma StripOneStep(v: Value, version: int, pf: Platform, s: Stripped, done: seq<Path>, text: string)
    returns (now: seq<Path>)
    requires WellFormed(v) && PlainReport(v, version, pf) && StripState(v, version, pf, s, done)
    requires Reported(v, ParsePath(text), version, pf) && Render(ParsePath(text)) == text
    ensures StripState(v, version, pf, StripOne(s, text), now)
    ensures done <= now && (text == "hashVersion" || ParsePath(text) in now)
  {
    hide Material, ParsePath, Render, Pruned, RulesOf, Lookup, At, Present, Authenticated, Erased;
    var q := ParsePath(text);
    MaterialUnauthenticated(v, q, RulesOf(version, pf.nfc), RulesOf(5, pf.nfc), TOP);
    if text == "hashVersion" {
      now := done;
    } else if q in done {
      PrunedIsGone(v, done, q);
      now := done;
    } else {
      now := done + [q];
      StripFresh(v, version, pf, s, done, text, q);
    }
  }

  /** A reported path not yet deleted lies beside every deleted one, and has a text of its own. */
  lemma FreshBeside(v: Value, version: int, pf: Platform, q: Path, p: Path)
    requires PlainReport(v, version, pf) && Reported(v, q, version, pf) && Reported(v, p, version, pf) && p != q
    ensures !Comparable(q, p) && Render(p) != Render(q)
  {
    hide Material, ParsePath, Render, RulesOf;
    if p <= q { MaterialPrefixFree(v, p, q, RulesOf(version, pf.nfc), RulesOf(5, pf.nfc), TOP); }
    if q <= p { MaterialPrefixFree(v, q, p, RulesOf(version, pf.nfc), RulesOf(5, pf.nfc), TOP); }
    ParseRender(p);
    ParseRender(q);
  }

  lemma StripFresh(v: Value, version: int, pf: Platform, s: Stripped, done: seq<Path>, text: string, q: Path)
    requires WellFormed(v) && PlainReport(v, version, pf) && StripState(v, version, pf, s, done)
    requires q == ParsePath(text) && Reported(v, q, version, pf) && Render(q) == text && text != "hashVersion"
    requires Present(v, q) && At(v, q) != Undefined && q !in done
    ensures StripState(v, version, pf, StripOne(s, text), done + [q])
  {
    hide Reported, ParsePath, Render, Pruned, Lookup, At, Present, Comparable, PutKey, DeleteAt, DistinctKeys,
         PlainReport;
    forall p | p in done ensures !Comparable(q, p) && Render(p) != text { FreshBeside(v, version, pf, q, p); }
    PrunedKeepsBeside(v, done, q);
    PrunedNext(v, done, q);
    PutKeyLookup(s.claims, text, At(v, q));
    HashVersionText(q);
    ClaimsGrow(v, s, done, q, text);
  }

  lemma HashVersionText(q: Path)
    requires Render(q) != "hashVersion"
    ensures q != [Key("hashVersion")]
  {
    if q == [Key("hashVersion")] {
      assert RenderFrom("hashVersion", q[1..]) == "hashVersion";
    }
  }

  lemma ClaimsGrow(v: Value, s: Stripped, done: seq<Path>, q: Path, text: string)
    requires DistinctKeys(s.claims) && Present(v, q) && Render(q) == text
    requires forall p :: p in done ==>
               Present(v, p) && Lookup(s.claims, Render(p)) == Some(At(v, p)) && Render(p) != text
    requires forall k :: Lookup(s.claims, k).Some? ==> exists p :: p in done && Render(p) == k
    ensures var claims := PutKey(s.claims, text, At(v, q));
            && (forall p :: p in done + [q] ==> Present(v, p) && Lookup(claims, Render(p)) == Some(At(v, p)))
            && (forall k :: Lookup(claims, k).Some? ==> exists p :: p in done + [q] && Render(p) == k)
  {
    var claims := PutKey(s.claims, text, At(v, q));
    PutKeyLookup(s.claims, text, At(v, q));
    forall k | Lookup(claims, k).Some? ensures exists p :: p in done + [q] && Render(p) == k {
      if k == text {
        assert q in done + [q] && Render(q) == k;
      } else {
        assert Lookup(s.claims, k).Some?;
        var p :| p in done && Render(p) == k;
        assert p in done + [q];
      }
    }
  }

  /** Every text names a reported path. */
  ghost predicate NamesReported(v: Value, version: int, pf: Platform, texts: seq<string>)
  {
    forall i :: 0 <= i < |texts| ==>
      Reported(v, ParsePath(texts[i]), version, pf) && Render(ParsePath(texts[i])) == texts[i]
  }

  /** Every text but hashVersion names a path that was deleted. */
  ghost predicate AllDone(texts: seq<string>, done: seq<Path>)
  {
    forall i :: 0 <= i < |texts| ==> texts[i] == "hashVersion" || ParsePath(texts[i]) in done
  }

  lemma AllDoneHead(texts: seq<string>, now: seq<Path>, all: seq<Path>)
    requires texts != [] && now <= all && AllDone(texts[1..], all)
    requires texts[0] == "hashVersion" || ParsePath(texts[0]) in now
    ensures AllDone(texts, all)
  {
    forall i | 0 <= i < |texts| ensures texts[i] == "hashVersion" || ParsePath(texts[i]) in all {
      if i > 0 { assert texts[i] == texts[1..][i - 1]; }
    }
  }

  lemma {:induction false} StripAllSteps(v: Value, version: int, pf: Platform, s: Stripped, done: seq<Path>,
                                         texts: seq<string>)
    returns (all: seq<Path>)
    requires WellFormed(v) && PlainReport(v, version, pf) && StripState(v, version, pf, s, done)
    requires NamesReported(v, version, pf, texts)
    ensures StripState(v, version, pf, StripAll(s, texts), all)
    ensures done <= all && AllDone(texts, all)
    decreases |texts|
  {
    if texts == [] {
      all := done;
    } else {
      assert NamesReported(v, version, pf, texts[1..]);
      var now := StripOneStep(v, version, pf, s, done, texts[0]);
      all := StripAllSteps(v, version, pf, StripOne(s, texts[0]), now, texts[1..]);
      AllDoneHead(texts, now, all);
    }
  }

  /** Stripping a source deletes every reported path but hashVersion, and claims exactly what it deleted. */
  lemma StripSourceExact(v: Value, version: int, pf: Platform) returns (all: seq<Path>)
    requires WellFormed(v) && version < 5 && PlainReport(v, version, pf)
    ensures StripState(v, version, pf, StripSource(v, version, pf), all)
    ensures forall p :: p in all <==> Reported(v, p, version, pf) && p != [Key("hashVersion")]
  {
    hide Material, ParsePath, RenderFrom, LegacyPaths, SortLongestFirst, StripAll, RulesOf, PlainPath, At, Present,
         Lookup;
    var paths := MaterialPaths(v, version, pf.nfc);
    var texts := SortLongestFirst(RenderAll([], paths));
    forall j | 0 <= j < |texts|
      ensures Reported(v, ParsePath(texts[j]), version, pf) && Render(ParsePath(texts[j])) == texts[j] {
      var t := texts[j];
      SortLongestMembers(RenderAll([], paths), t);
      var i :| 0 <= i < |paths| && RenderAll([], paths)[i] == t;
      LegacyPathsExact(v, paths[i], RulesOf(version, pf.nfc), RulesOf(5, pf.nfc), TOP);
      ParseRender(paths[i]);
    }
    assert StripState(v, version, pf, Stripped(v, []), []);
    all := StripAllSteps(v, version, pf, Stripped(v, []), [], texts);
    forall p | Reported(v, p, version, pf) && p != [Key("hashVersion")] ensures p in all {
      LegacyPathsExact(v, p, RulesOf(version, pf.nfc), RulesOf(5, pf.nfc), TOP);
      var i :| 0 <= i < |paths| && paths[i] == p;
      var t := RenderAll([], paths)[i];
      SortLongestMembers(RenderAll([], paths), t);
      ParseRender(p);
      PlainHashVersion();
    }
  }

  lemma PlainHashVersion()
    ensures ParsePath("hashVersion") == [Key("hashVersion")]
  {
    var k := "hashVersion";
    assert PlainPath([Key(k)]);
    ParseRender([Key(k)]);
    assert RenderFrom(k, [Key(k)][1..]) == k;
  }

  // ----- the members of a re-issue

  lemma NamesDistinct()
    ensures "hashVersion" != "legacyClaims" && "hashVersion" != "lineage" && "legacyClaims" != "lineage"
    ensures "hashVersion" != "originalContentHash" && "lineage" != "originalContentHash"
            && "legacyClaims" != "originalContentHash"
    ensures "hashVersion" != "artifactId" && "lineage" != "artifactId" && "legacyClaims" != "artifactId"
    ensures "artifactId" != "originalContentHash"
  {
  }

  /** The members version 5 drops at the top level and a re-issue rebuilds. */
  predicate Restamped(k: string)
  {
    k == "contentHash" || k == "planId" || k == "signedId"
  }

  function BareMember(fields: seq<Pair<Value>>, k: string): (r: Option<Value>)
  {
    if k == "originalContentHash" || (k == "artifactId" && !Member(Obj(fields), "artifactId").Undefined?) then None
    else Lookup(fields, k)
  }

  lemma BareLookup(fields: seq<Pair<Value>>, k: string)
    requires DistinctKeys(fields)
    ensures DistinctKeys(Bare(fields))
    ensures !Restamped(k) ==> Lookup(Bare(fields), k) == BareMember(fields, k)
  {
    NamesDistinct();
    RemoveKeyLookup(fields, "artifactId");
    var f1 := if Member(Obj(fields), "artifactId").Undefined? then fields else RemoveKey(fields, "artifactId");
    RemoveKeyLookup(f1, "planId");
    var f2 := RemoveKey(f1, "planId");
    RemoveKeyLookup(f2, "signedId");
    var f3 := RemoveKey(f2, "signedId");
    RemoveKeyLookup(f3, "contentHash");
    RemoveKeyLookup(RemoveKey(f3, "contentHash"), "originalContentHash");
  }

  function UnsealedMember(fields: seq<Pair<Value>>, lineage: Value, claims: Option<Value>,
                          k: string): (r: Option<Value>)
  {
    if k == "hashVersion" then Some(Num("5"))
    else if k == "legacyClaims" then claims
    else if k == "lineage" then Some(lineage)
    else BareMember(fields, k)
  }

  lemma UnsealedLookup(fields: seq<Pair<Value>>, lineage: Value, claims: Option<Value>, k: string)
    requires DistinctKeys(fields)
    ensures DistinctKeys(Unsealed(fields, lineage, claims))
    ensures !Restamped(k) ==> Lookup(Unsealed(fields, lineage, claims), k) == UnsealedMember(fields, lineage, claims, k)
  {
    hide PutKey, Lookup, Bare, BareMember, RemoveKey;
    NamesDistinct();
    BareLookup(fields, k);
    PutKeyLookup(Bare(fields), "lineage", lineage);
    var withLineage := PutKey(Bare(fields), "lineage", lineage);
    RemoveKeyLookup(withLineage, "legacyClaims");
    if claims.Some? { PutKeyLookup(withLineage, "legacyClaims", claims.value); }
    var withClaims := match claims
                      case Some(c) => PutKey(withLineage, "legacyClaims", c)
                      case None => RemoveKey(withLineage, "legacyClaims");
    PutKeyLookup(withClaims, "hashVersion", Num("5"));
  }

  lemma SealedLookup(fields: seq<Pair<Value>>, lineage: Value, hash: string, k: string)
    requires DistinctKeys(fields)
    ensures DistinctKeys(Sealed(fields, lineage, hash))
    ensures !Restamped(k) ==>
              Lookup(Sealed(fields, lineage, hash), k) == if k == "lineage" then Some(lineage) else Lookup(fields, k)
  {
    hide PutKey, Lookup;
    PutKeyLookup(fields, "contentHash", Str(hash));
    var f1 := PutKey(fields, "contentHash", Str(hash));
    PutKeyLookup(f1, "lineage", lineage);
    var f2 := PutKey(f1, "lineage", lineage);
    PutKeyLookup(f2, "planId", Str("plan-" + Take16(hash)));
    PutKeyLookup(f2, "signedId", Str("signed-" + Take16(hash)));
    PutKeyLookup(PutKey(f2, "planId", Str("plan-" + Take16(hash))), "signedId", Str("signed-" + Take16(hash)));
  }

  lemma RestampedDropped(k: string, pf: Platform)
    requires Restamped(k)
    ensures RulesOf(5, pf.nfc).excluded(k, 0, None)
  {
    assert V5DerivedLabel("planId") && V5DerivedLabel("signedId");
  }

  /** A re-issue without its record of claims. */
  function WithoutClaims(artifact: Value): (r: Value)
  {
    if artifact.Obj? then Obj(RemoveKey(artifact.fields, "legacyClaims")) else artifact
  }

  lemma SameTextRules(pf: Platform)
    ensures SameTexts(RulesOf(5, pf.nfc), RulesOf(4, pf.nfc))
  {
  }

  /** Deleting every material path but one top-level key shows, under the other keys, what the legacy rules showed. */
  lemma PrunedButOneShown(source: Value, all: seq<Path>, hv: string, legacy: Rules, current: Rules, k: string)
    requires source.Obj? && WellFormed(source) && DropsWithin(current, legacy) && SameTexts(current, legacy)
    requires forall p :: p in all <==> Material(source, p, legacy, current, TOP) && p != [Key(hv)]
    ensures Pruned(source, all).Obj? && DistinctKeys(Pruned(source, all).fields)
    ensures k != hv ==>
              ShownMember(Pruned(source, all).fields, k, current, TOP) == ShownMember(source.fields, k, legacy, TOP)
  {
    PrunedObject(source.fields, all);
    var ps := if Material(source, [Key(hv)], legacy, current, TOP) then all + [[Key(hv)]] else all;
    assert ListsMaterial(ps, source, legacy, current, TOP);
    PrunedNormal(source, ps, legacy, current, TOP);
    PrunedObject(source.fields, ps);
    ObjectsNormalEqual(Pruned(source, ps).fields, source.fields, current, legacy, TOP);
    if k != hv {
      PrunedNext(source, all, [Key(hv)]);
      DeleteElsewhere(Pruned(source, all).fields, [Key(hv)], k);
      assert ShownMember(Pruned(source, ps).fields, k, current, TOP) == ShownMember(source.fields, k, legacy, TOP);
    }
  }

  /** Stripping a version-4 source leaves, under every key but hashVersion, what version 4 showed there. */
  lemma StrippedShown(source: Value, pf: Platform, k: string)
    requires source.Obj? && WellFormed(source) && PlainReport(source, 4, pf)
    ensures StripSource(source, 4, pf).body.Obj? && DistinctKeys(StripSource(source, 4, pf).body.fields)
    ensures k != "hashVersion" ==> ShownMember(StripSource(source, 4, pf).body.fields, k, RulesOf(5, pf.nfc), TOP)
                                   == ShownMember(source.fields, k, RulesOf(4, pf.nfc), TOP)
  {
    var all := StripSourceExact(source, 4, pf);
    V5WithinV4(pf.nfc);
    SameTextRules(pf);
    PrunedButOneShown(source, all, "hashVersion", RulesOf(4, pf.nfc), RulesOf(5, pf.nfc), k);
  }

  lemma ArtifactIdKept(pf: Platform)
    ensures !RulesOf(5, pf.nfc).excluded("artifactId", 0, None)
  {
    assert !V5Unauthenticated("artifactId");
  }

  lemma ArtifactIdDroppedV4(pf: Platform)
    ensures RulesOf(4, pf.nfc).excluded("artifactId", 0, None)
  {
    assert V4Exclusion("artifactId");
  }

  lemma ExcludedHeadHidden(fs: seq<Pair<Value>>, gs: seq<Pair<Value>>, rules: Rules, pos: Pos)
    requires fs != [] && gs != [] && fs[1..] == gs[1..]
    requires rules.excluded(fs[0].key, pos.depth, pos.parent) && rules.excluded(gs[0].key, pos.depth, pos.parent)
    ensures Normalize(Obj(fs), rules, pos) == Normalize(Obj(gs), rules, pos)
  {
    assert NormFields(fs, rules, pos) == NormFields(fs[1..], rules, pos);
    assert NormFields(gs, rules, pos) == NormFields(gs[1..], rules, pos);
  }

  /** The identity an artifact names in its own lineage is outside its form. */
  lemma LineageOwnHidden(source: Value, verified: VerifiedSource, pf: Platform, own: string)
    ensures Normalize(ReissueLineage(source, verified, pf, own), RulesOf(5, pf.nfc), InKey(TOP, "lineage"))
            == Normalize(ReissueLineage(source, verified, pf, ""), RulesOf(5, pf.nfc), InKey(TOP, "lineage"))
  {
    hide V4Exclusion, SemanticExclusion, V5Unauthenticated, V5DerivedLabel, NormalText, Carried, PreviousSequence,
         Normalize;
    var fs, gs := ReissueLineage(source, verified, pf, own).fields, ReissueLineage(source, verified, pf, "").fields;
    assert fs[1..] == gs[1..];
    ExcludedHeadHidden(fs, gs, RulesOf(5, pf.nfc), InKey(TOP, "lineage"));
  }

  /** The members of a re-issue without its claims, given what stripping left and the stamped lineage. */
  ghost predicate ReissueMembers(final: seq<Pair<Value>>, body: seq<Pair<Value>>, lineage: Value)
  {
    && DistinctKeys(final)
    && forall k :: !Restamped(k) ==>
         Lookup(final, k) == if k == "legacyClaims" then None
                             else if k == "hashVersion" then Some(Num("5"))
                             else if k == "lineage" then Some(lineage)
                             else BareMember(body, k)
  }

  lemma ReissueHasMembers(source: Value, verified: VerifiedSource, pf: Platform) returns (hash: string)
    requires StripSource(source, verified.hashVersion, pf).body.Obj?
    requires DistinctKeys(StripSource(source, verified.hashVersion, pf).body.fields)
    ensures ReissueOf(source, verified, pf).artifact.Obj?
    ensures ReissueMembers(WithoutClaims(ReissueOf(source, verified, pf).artifact).fields,
                           StripSource(source, verified.hashVersion, pf).body.fields,
                           ReissueLineage(source, verified, pf, hash))
  {
    var s := StripSource(source, verified.hashVersion, pf);
    var claims := ClaimsOf(s);
    var block := if claims == [] then None else Some(LegacyClaims(verified, claims));
    var lineage := ReissueLineage(source, verified, pf, "");
    var body := Unsealed(s.body.fields, lineage, block);
    hash := ContentHash(Obj(body), 5, pf);
    var stamped := ReissueLineage(source, verified, pf, hash);
    SealedMembers(s.body.fields, lineage, stamped, block, hash);
  }

  lemma SealedMembers(fields: seq<Pair<Value>>, lineage: Value, stamped: Value, block: Option<Value>, hash: string)
    requires DistinctKeys(fields)
    ensures ReissueMembers(RemoveKey(Sealed(Unsealed(fields, lineage, block), stamped, hash), "legacyClaims"), fields,
                           stamped)
  {
    var body := Unsealed(fields, lineage, block);
    UnsealedLookup(fields, lineage, block, "");
    SealedLookup(body, stamped, hash, "");
    var final := Sealed(body, stamped, hash);
    RemoveKeyLookup(final, "legacyClaims");
    NamesDistinct();
    forall k | !Restamped(k)
      ensures Lookup(RemoveKey(final, "legacyClaims"), k)
              == if k == "legacyClaims" then None else if k == "hashVersion" then Some(Num("5"))
                 else if k == "lineage" then Some(stamped) else BareMember(fields, k)
    {
      UnsealedLookup(fields, lineage, block, k);
      SealedLookup(body, stamped, hash, k);
    }
  }

  /** What version 5 shows of a re-issue's members, from what version 4 showed of the source's. */
  lemma MembersShown(final: seq<Pair<Value>>, body: seq<Pair<Value>>, lineage: Value, source: seq<Pair<Value>>,
                     r4: Rules, r5: Rules, k: string)
    requires ReissueMembers(final, body, lineage) && !Restamped(k)
    requires r4.excluded("artifactId", 0, None) && !r5.excluded("artifactId", 0, None)
    requires ShownMember(body, "artifactId", r5, TOP) == ShownMember(source, "artifactId", r4, TOP)
    requires k != "hashVersion" ==> ShownMember(body, k, r5, TOP) == ShownMember(source, k, r4, TOP)
    ensures ShownMember(final, k, r5, TOP)
            == if r5.excluded(k, 0, None) || k == "legacyClaims" || k == "originalContentHash" || k == "artifactId" then
              None
               else if k == "hashVersion" then Some(Lit("5"))
               else if k == "lineage" then Shown(lineage, r5, InKey(TOP, "lineage"), true)
               else ShownMember(source, k, r4, TOP)
  {
    NamesDistinct();
    assert Lookup(final, k) == if k == "legacyClaims" then None else if k == "hashVersion" then Some(Num("5"))
                               else if k == "lineage" then Some(lineage) else BareMember(body, k);
  }

  /** Two re-issues whose sources show the same, and whose lineage blocks show the same, show the same. */
  lemma SameReissueShown(fa: seq<Pair<Value>>, ba: seq<Pair<Value>>, la: Value, sa: seq<Pair<Value>>,
                         fb: seq<Pair<Value>>, bb: seq<Pair<Value>>, lb: Value, sb: seq<Pair<Value>>, r4: Rules,
                           r5: Rules)
    requires ReissueMembers(fa, ba, la) && ReissueMembers(fb, bb, lb)
    requires r4.excluded("artifactId", 0, None) && !r5.excluded("artifactId", 0, None)
    requires forall k :: Restamped(k) ==> r5.excluded(k, 0, None)
    requires forall k :: k != "hashVersion" ==> ShownMember(ba, k, r5, TOP) == ShownMember(sa, k, r4, TOP)
    requires forall k :: k != "hashVersion" ==> ShownMember(bb, k, r5, TOP) == ShownMember(sb, k, r4, TOP)
    requires SameShown(sa, sb, r4, r4, TOP)
    requires Shown(la, r5, InKey(TOP, "lineage"), true) == Shown(lb, r5, InKey(TOP, "lineage"), true)
    ensures SameShown(fa, fb, r5, r5, TOP)
  {
    NamesDistinct();
    forall k ensures ShownMember(fa, k, r5, TOP) == ShownMember(fb, k, r5, TOP) {
      if !Restamped(k) {
        MembersShown(fa, ba, la, sa, r4, r5, k);
        MembersShown(fb, bb, lb, sb, r4, r5, k);
        assert ShownMember(sa, k, r4, TOP) == ShownMember(sb, k, r4, TOP);
      }
    }
  }

  // ----- the lineage a re-issue carries over

  /** NFC leaves 64-digit hexadecimal texts alone, and makes no other text one. */
  ghost predicate HexStable(nfc: string -> string)
  {
    forall s: string :: Hex64(s) || Hex64(nfc(s)) ==> nfc(s) == s
  }

  lemma {:induction false} CrlfUntouched(s: string)
    requires '\r' !in s || '\n' !in ReplaceCrlf(s)
    ensures ReplaceCrlf(s) == s
  {
    if s != [] && !(s[0] == '\r' && |s| > 1 && s[1] == '\n') {
      assert ReplaceCrlf(s) == [s[0]] + ReplaceCrlf(s[1..]);
      CrlfUntouched(s[1..]);
    }
  }

  /** A version-4 text that is a 64-digit hexadecimal was written as that hexadecimal. */
  lemma HexTextExact(s: string, field: string, nfc: string -> string)
    requires HexStable(nfc) && !StrictPathKey(field)
    ensures Hex64(s) || Hex64(NormalText(s, Some(field), 4, nfc)) ==> NormalText(s, Some(field), 4, nfc) == s
  {
    if Hex64(s) {
      CrlfUntouched(s);
    } else if Hex64(ReplaceCrlf(nfc(s))) {
      CrlfUntouched(nfc(s));
    }
  }

  /** The hexadecimal a value carries. */
  function HexOf(v: Value): (r: Option<string>)
  {
    if v.Str? && Hex64(v.s) then Some(v.s) else None
  }

  lemma HexDetermined(x: Value, y: Value, field: string, nfc: string -> string, pos: Pos)
    requires HexStable(nfc) && !StrictPathKey(field) && pos.keyName == Some(field)
    requires Shown(x, RulesOf(4, nfc), pos, true) == Shown(y, RulesOf(4, nfc), pos, true)
    ensures HexOf(x) == HexOf(y)
  {
    hide NormalText, IntText, HexStable, StrictPathKey;
    if x.Str? { HexTextExact(x.s, field, nfc); }
    if y.Str? { HexTextExact(y.s, field, nfc); }
    assert x.BigInt? ==> BigIntText(x.n, 4)[0] == 'n';
    assert y.BigInt? ==> BigIntText(y.n, 4)[0] == 'n';
  }

  function NumOf(v: Value): (t: string)
  {
    if v.Num? then v.text else "0"
  }

  lemma NumDetermined(x: Value, y: Value, rules: Rules, pos: Pos)
    requires WellFormed(x) && WellFormed(y)
    requires Shown(x, rules, pos, true) == Shown(y, rules, pos, true)
    ensures NumOf(x) == NumOf(y)
  {
    assert x.Num? ==> NumberChar(x.text[0]);
    assert y.Num? ==> NumberChar(y.text[0]);
  }

  /** Objects and values that show the same show the same below any key that is not dropped. */
  lemma MemberDetermined(x: Value, y: Value, k: string, rules: Rules, pos: Pos)
    requires WellFormed(x) && WellFormed(y) && !rules.excluded(k, pos.depth, pos.parent)
    requires Shown(x, rules, pos, true) == Shown(y, rules, pos, true)
    ensures Shown(Member(x, k), rules, InKey(pos, k), true) == Shown(Member(y, k), rules, InKey(pos, k), true)
  {
    if x.Obj? && y.Obj? {
      ObjectsNormalEqual(x.fields, y.fields, rules, rules, pos);
      assert ShownMember(x.fields, k, rules, pos) == ShownMember(y.fields, k, rules, pos);
    }
  }

  lemma LineageNamesV4()
    ensures !V4Exclusion("lineage")
    ensures !StrictPathKey("lineageId") && !StrictPathKey("rootArtifactId")
  {
  }

  lemma LineageIdV4()
    ensures !V4Exclusion("lineageId")
  {
  }

  lemma RootIdV4()
    ensures !V4Exclusion("rootArtifactId")
  {
  }

  lemma SequenceV4()
    ensures !V4Exclusion("sequence")
  {
  }

  /** Two version-4 sources with one form give their re-issues one lineage block. */
  lemma LineageDetermined(a: Value, b: Value, verified: VerifiedSource, pf: Platform, own: string)
    requires a.Obj? && b.Obj? && WellFormed(a) && WellFormed(b) && HexStable(pf.nfc) && verified.hashVersion == 4
    requires SameShown(a.fields, b.fields, RulesOf(4, pf.nfc), RulesOf(4, pf.nfc), TOP)
    ensures ReissueLineage(a, verified, pf, own) == ReissueLineage(b, verified, pf, own)
  {
    hide V4Exclusion, SemanticExclusion, V5Unauthenticated, V5DerivedLabel, NormalText, StrictPathKey, Normalize,
         ReissueLineage, HexOf, NumOf;
    var r4 := RulesOf(4, pf.nfc);
    LineageNamesV4();
    LineageIdV4();
    RootIdV4();
    SequenceV4();
    var la, lb := Member(a, "lineage"), Member(b, "lineage");
    MemberWellFormed(a, "lineage");
    MemberWellFormed(b, "lineage");
    var pos := InKey(TOP, "lineage");
    assert ShownMember(a.fields, "lineage", r4, TOP) == ShownMember(b.fields, "lineage", r4, TOP);
    assert Shown(la, r4, pos, true) == Shown(lb, r4, pos, true);
    LineageHex(la, lb, "lineageId", pf.nfc, pos);
    LineageHex(la, lb, "rootArtifactId", pf.nfc, pos);
    LineageNumber(la, lb, "sequence", r4, pos);
    SameLineageBlock(a, b, verified, pf, own);
  }

  lemma LineageNumber(la: Value, lb: Value, field: string, rules: Rules, pos: Pos)
    requires WellFormed(la) && WellFormed(lb) && !rules.excluded(field, pos.depth, pos.parent)
    requires Shown(la, rules, pos, true) == Shown(lb, rules, pos, true)
    ensures NumOf(Member(la, field)) == NumOf(Member(lb, field))
  {
    MemberDetermined(la, lb, field, rules, pos);
    MemberWellFormed(la, field);
    MemberWellFormed(lb, field);
    NumDetermined(Member(la, field), Member(lb, field), rules, InKey(pos, field));
  }

  lemma SameLineageBlock(a: Value, b: Value, verified: VerifiedSource, pf: Platform, own: string)
    requires HexOf(Member(Member(a, "lineage"), "lineageId")) == HexOf(Member(Member(b, "lineage"), "lineageId"))
    requires HexOf(Member(Member(a, "lineage"), "rootArtifactId"))
             == HexOf(Member(Member(b, "lineage"), "rootArtifactId"))
    requires NumOf(Member(Member(a, "lineage"), "sequence")) == NumOf(Member(Member(b, "lineage"), "sequence"))
    ensures ReissueLineage(a, verified, pf, own) == ReissueLineage(b, verified, pf, own)
  {
    hide Member;
  }

  lemma LineageHex(la: Value, lb: Value, field: string, nfc: string -> string, pos: Pos)
    requires WellFormed(la) && WellFormed(lb) && HexStable(nfc)
    requires !V4Exclusion(field) && !StrictPathKey(field)
    requires Shown(la, RulesOf(4, nfc), pos, true) == Shown(lb, RulesOf(4, nfc), pos, true)
    ensures HexOf(Member(la, field)) == HexOf(Member(lb, field))
  {
    MemberDetermined(la, lb, field, RulesOf(4, nfc), pos);
    HexDetermined(Member(la, field), Member(lb, field), field, nfc, InKey(pos, field));
  }

  // ----- the theorems

  lemma V4Rules(pf: Platform)
    ensures RulesOf(4, pf.nfc).excluded("artifactId", 0, None) && !RulesOf(5, pf.nfc).excluded("artifactId", 0, None)
    ensures forall k :: Restamped(k) ==> RulesOf(5, pf.nfc).excluded(k, 0, None)
  {
    ArtifactIdKept(pf);
    ArtifactIdDroppedV4(pf);
    forall k | Restamped(k) ensures RulesOf(5, pf.nfc).excluded(k, 0, None) { RestampedDropped(k, pf); }
  }

  /** The stripped body and the members of a version-4 re-issue, ready to be compared. */
  lemma ReissueReady(source: Value, verified: VerifiedSource, pf: Platform)
    returns (final: seq<Pair<Value>>, body: seq<Pair<Value>>, hash: string)
    requires source.Obj? && WellFormed(source) && PlainReport(source, 4, pf) && verified.hashVersion == 4
    ensures WithoutClaims(ReissueOf(source, verified, pf).artifact) == Obj(final)
    ensures ReissueMembers(final, body, ReissueLineage(source, verified, pf, hash))
    ensures forall k :: k != "hashVersion" ==>
              ShownMember(body, k, RulesOf(5, pf.nfc), TOP) == ShownMember(source.fields, k, RulesOf(4, pf.nfc), TOP)
  {
    StrippedShown(source, pf, "");
    hash := ReissueHasMembers(source, verified, pf);
    final := WithoutClaims(ReissueOf(source, verified, pf).artifact).fields;
    body := StripSource(source, 4, pf).body.fields;
    forall k | k != "hashVersion"
      ensures ShownMember(body, k, RulesOf(5, pf.nfc), TOP) == ShownMember(source.fields, k, RulesOf(4, pf.nfc), TOP)
    {
      StrippedShown(source, pf, k);
    }
  }

  /**
   * Non-interference: two verified version-4 sources with one version-4 form are re-issued as artifacts that, apart
   * from the record of claims, have one version-5 form. Nothing the source version left unauthenticated is whitewashed.
   */
  lemma MigrationNonInterference(a: Value, b: Value, pf: Platform)
    requires WellFormed(a) && WellFormed(b) && HexStable(pf.nfc)
    requires VerifyMigrationSource(a, pf).Ok? && VerifyMigrationSource(b, pf).Ok?
    requires DeclaredVersion(a) == Some(4) && DeclaredVersion(b) == Some(4)
    requires PlainReport(a, 4, pf) && PlainReport(b, 4, pf)
    requires CanonicalForm(a, 4, pf.nfc) == CanonicalForm(b, 4, pf.nfc)
    ensures VerifyMigrationSource(a, pf) == VerifyMigrationSource(b, pf)
    ensures CanonicalForm(WithoutClaims(ReissueOf(a, VerifyMigrationSource(a, pf).value, pf).artifact), 5, pf.nfc)
            == CanonicalForm(WithoutClaims(ReissueOf(b, VerifyMigrationSource(b, pf).value, pf).artifact), 5, pf.nfc)
  {
    hide Excluded, ReissueOf, ReissueLineage, VerifyMigrationSource, Normalize, ShownMember, Lookup;
    var verified := VerifyMigrationSource(a, pf).value;
    SourcesShowTheSame(a, b, pf);
    var fa, ba, ha := ReissueReady(a, verified, pf);
    var fb, bb, hb := ReissueReady(b, verified, pf);
    var la, lb := ReissueLineage(a, verified, pf, ha), ReissueLineage(b, verified, pf, hb);
    LineageShownTheSame(a, b, verified, pf, ha, hb);
    V4Rules(pf);
    SameReissueForm(fa, ba, la, a.fields, fb, bb, lb, b.fields, RulesOf(4, pf.nfc), RulesOf(5, pf.nfc));
  }

  lemma LineageShownTheSame(a: Value, b: Value, verified: VerifiedSource, pf: Platform, ha: string, hb: string)
    requires a.Obj? && b.Obj? && WellFormed(a) && WellFormed(b) && HexStable(pf.nfc) && verified.hashVersion == 4
    requires SameShown(a.fields, b.fields, RulesOf(4, pf.nfc), RulesOf(4, pf.nfc), TOP)
    ensures Shown(ReissueLineage(a, verified, pf, ha), RulesOf(5, pf.nfc), InKey(TOP, "lineage"), true)
            == Shown(ReissueLineage(b, verified, pf, hb), RulesOf(5, pf.nfc), InKey(TOP, "lineage"), true)
  {
    LineageDetermined(a, b, verified, pf, "");
    LineageOwnHidden(a, verified, pf, ha);
    LineageOwnHidden(b, verified, pf, hb);
  }

  lemma SameReissueForm(fa: seq<Pair<Value>>, ba: seq<Pair<Value>>, la: Value, sa: seq<Pair<Value>>,
                        fb: seq<Pair<Value>>, bb: seq<Pair<Value>>, lb: Value, sb: seq<Pair<Value>>, r4: Rules,
                          r5: Rules)
    requires ReissueMembers(fa, ba, la) && ReissueMembers(fb, bb, lb)
    requires r4.excluded("artifactId", 0, None) && !r5.excluded("artifactId", 0, None)
    requires forall k :: Restamped(k) ==> r5.excluded(k, 0, None)
    requires forall k :: k != "hashVersion" ==> ShownMember(ba, k, r5, TOP) == ShownMember(sa, k, r4, TOP)
    requires forall k :: k != "hashVersion" ==> ShownMember(bb, k, r5, TOP) == ShownMember(sb, k, r4, TOP)
    requires SameShown(sa, sb, r4, r4, TOP)
    requires Shown(la, r5, InKey(TOP, "lineage"), true) == Shown(lb, r5, InKey(TOP, "lineage"), true)
    ensures Serialize(Obj(fa), r5, TOP) == Serialize(Obj(fb), r5, TOP)
  {
    SameReissueShown(fa, ba, la, sa, fb, bb, lb, sb, r4, r5);
    ObjectsNormalEqual(fa, fb, r5, r5, TOP);
    SerializePrintsNormal(Obj(fa), r5, TOP);
    SerializePrintsNormal(Obj(fb), r5, TOP);
  }

  lemma SourcesShowTheSame(a: Value, b: Value, pf: Platform)
    requires WellFormed(a) && WellFormed(b)
    requires VerifyMigrationSource(a, pf).Ok? && VerifyMigrationSource(b, pf).Ok?
    requires DeclaredVersion(a) == Some(4) && DeclaredVersion(b) == Some(4)
    requires CanonicalForm(a, 4, pf.nfc) == CanonicalForm(b, 4, pf.nfc)
    ensures a.Obj? && b.Obj?
    ensures VerifyMigrationSource(a, pf) == VerifyMigrationSource(b, pf)
    ensures SameShown(a.fields, b.fields, RulesOf(4, pf.nfc), RulesOf(4, pf.nfc), TOP)
  {
    FormsDecideNormal(a, b, RulesOf(4, pf.nfc), RulesOf(4, pf.nfc), TOP, TOP);
    ObjectsNormalEqual(a.fields, b.fields, RulesOf(4, pf.nfc), RulesOf(4, pf.nfc), TOP);
  }

  // ----- claims

  lemma ClaimsFieldsMember(verified: VerifiedSource, claims: seq<Pair<Value>>, k: string)
    requires DistinctKeys(claims)
    ensures Member(Member(LegacyClaims(verified, claims), "fields"), k) == Member(Obj(claims), k)
  {
    SortKeeps(claims);
    var block := LegacyClaims(verified, claims);
    assert block.fields[4] == Pair("fields", Obj(SortByKey(claims)));
    assert DistinctKeys(block.fields);
    LookupAt(block.fields, 4);
    assert Lookup(SortByKey(claims), k) == Lookup(claims, k);
  }

  lemma ClaimsOfKeeps(s: Stripped, k: string)
    requires DistinctKeys(s.claims)
    ensures DistinctKeys(ClaimsOf(s))
    ensures Lookup(s.claims, k).Some? ==> Lookup(ClaimsOf(s), k) == Lookup(s.claims, k)
    ensures Lookup(ClaimsOf(s), k).Some? ==> k == "artifactId" || Lookup(s.claims, k).Some?
  {
    PutKeyLookup(s.claims, "artifactId", Member(s.body, "artifactId"));
  }

  lemma ClaimsBlockStored(source: Value, verified: VerifiedSource, pf: Platform)
    requires StripSource(source, verified.hashVersion, pf).body.Obj?
    requires DistinctKeys(StripSource(source, verified.hashVersion, pf).body.fields)
    requires ClaimsOf(StripSource(source, verified.hashVersion, pf)) != []
    ensures Member(ReissueOf(source, verified, pf).artifact, "legacyClaims")
            == LegacyClaims(verified, ClaimsOf(StripSource(source, verified.hashVersion, pf)))
  {
    var s := StripSource(source, verified.hashVersion, pf);
    var block := Some(LegacyClaims(verified, ClaimsOf(s)));
    var lineage := ReissueLineage(source, verified, pf, "");
    var body := Unsealed(s.body.fields, lineage, block);
    var hash := ContentHash(Obj(body), 5, pf);
    UnsealedLookup(s.body.fields, lineage, block, "legacyClaims");
    SealedLookup(body, ReissueLineage(source, verified, pf, hash), hash, "legacyClaims");
    NamesDistinct();
  }

  /** Every value a legacy version never authenticated is found in the re-issue, under its path, as a claim. */
  lemma StrippedValueClaimed(source: Value, verified: VerifiedSource, pf: Platform, p: Path)
    requires source.Obj? && WellFormed(source) && verified.hashVersion < 5
             && PlainReport(source, verified.hashVersion, pf)
    requires Reported(source, p, verified.hashVersion, pf) && p != [Key("hashVersion")]
    ensures Present(source, p)
    ensures Member(Member(Member(ReissueOf(source, verified, pf).artifact, "legacyClaims"), "fields"), Render(p))
            == At(source, p)
  {
    hide ReissueOf, StripSource, RenderFrom, Material, LegacyClaims, Pruned;
    var all := StripSourceExact(source, verified.hashVersion, pf);
    PrunedObject(source.fields, all);
    var s := StripSource(source, verified.hashVersion, pf);
    assert p in all;
    ClaimsOfKeeps(s, Render(p));
    assert Lookup(ClaimsOf(s), Render(p)) == Some(At(source, p));
    ClaimsBlockStored(source, verified, pf);
    ClaimsFieldsMember(verified, ClaimsOf(s), Render(p));
  }

  /** Nothing else is claimed: a claim's key is the text of a reported path. */
  lemma ClaimsOnlyReported(source: Value, verified: VerifiedSource, pf: Platform, k: string)
    requires source.Obj? && WellFormed(source) && verified.hashVersion < 5
             && PlainReport(source, verified.hashVersion, pf)
    requires Lookup(ReissueOf(source, verified, pf).claims, k).Some?
    ensures k == "artifactId" || exists p :: Reported(source, p, verified.hashVersion, pf) && Render(p) == k
  {
    var all := StripSourceExact(source, verified.hashVersion, pf);
    ClaimsOfKeeps(StripSource(source, verified.hashVersion, pf), k);
  }
}
