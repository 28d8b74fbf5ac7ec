/**
 * When two legacy sources that hash alike are re-issued alike: exactly when version 5 sees the same below the keys no
 * path text can carry, and, for version 3, when the sequence that version never authenticated counts on to the same
 * number.
 */
module Reissues {
  import opened Common
  import opened Json
  import opened Canonical
  import opened Paths
  import opened HashVersions
  import opened LegacyFields
  import opened Prune
  import opened Migration
  import opened NonInterference
  import opened Exposure

  // ----- where unauthenticated fields may survive

  /** A present path of keys both rules keep, plain but for its last. */
  predicate Exposed(v: Value, p: Path, legacy: Rules, current: Rules, pos: Pos)
    decreases p
  {
    p != [] &&
    match p[0]
    case Key(k) =>
      && v.Obj? && Member(v, k) != Undefined && Kept(k, legacy, current, pos)
      && (if PlainKey(k) then Exposed(Member(v, k), p[1..], legacy, current, InKey(pos, k)) else |p| == 1)
    case Index(i) => v.Arr? && i < |v.items| && Exposed(v.items[i], p[1..], legacy, current, InItem(pos))
  }

  /** The current rules see the same at the path. */
  predicate Alike(a: Value, b: Value, p: Path, current: Rules, pos: Pos)
  {
    Normalize(TryAt(a, p), current, PosAt(p, pos)) == Normalize(TryAt(b, p), current, PosAt(p, pos))
  }

  /** ... at every exposed path. */
  ghost predicate Agree(a: Value, b: Value, legacy: Rules, current: Rules, pos: Pos)
  {
    forall p :: Exposed(a, p, legacy, current, pos) && Exposed(b, p, legacy, current, pos) ==>
      Alike(a, b, p, current, pos)
  }

  /** ... at every exposed path that begins with this segment. */
  ghost predicate AgreeUnder(a: Value, b: Value, seg: Seg, legacy: Rules, current: Rules, pos: Pos)
  {
    forall p :: p != [] && p[0] == seg && Exposed(a, p, legacy, current, pos) && Exposed(b, p, legacy, current, pos) ==>
      Alike(a, b, p, current, pos)
  }

  lemma TryAtStep(v: Value, seg: Seg, q: Path)
    ensures ([seg] + q)[0] == seg && ([seg] + q)[1..] == q
    ensures seg.Key? && v.Obj? && Member(v, seg.key) != Undefined ==>
              TryAt(v, [seg] + q) == TryAt(Member(v, seg.key), q)
    ensures seg.Index? && v.Arr? && seg.index < |v.items| ==> TryAt(v, [seg] + q) == TryAt(v.items[seg.index], q)
  {
    assert ([seg] + q)[1..] == q;
  }

  lemma PosStep(seg: Seg, q: Path, pos: Pos)
    ensures PosAt([seg] + q, pos) == PosAt(q, if seg.Key? then InKey(pos, seg.key) else InItem(pos))
  {
    assert ([seg] + q)[1..] == q;
  }

  /** Below a plain member, the question is the member's own. */
  lemma AgreeBelow(a: Value, b: Value, seg: Seg, x: Value, y: Value, inner: Pos, legacy: Rules, current: Rules,
                   pos: Pos)
    requires IsChild(a, seg, x, inner, legacy, pos) && IsChild(b, seg, y, inner, legacy, pos)
    requires seg.Key? ==> Kept(seg.key, legacy, current, pos)
    ensures AgreeUnder(a, b, seg, legacy, current, pos) <==> Agree(x, y, legacy, current, inner)
  {
    hide PlainKey, TryAt, PosAt, Normalize;
    if AgreeUnder(a, b, seg, legacy, current, pos) {
      forall q | Exposed(x, q, legacy, current, inner) && Exposed(y, q, legacy, current, inner)
        ensures Alike(x, y, q, current, inner) {
        TryAtStep(a, seg, q);
        TryAtStep(b, seg, q);
        PosStep(seg, q, pos);
        assert Exposed(a, [seg] + q, legacy, current, pos) && Exposed(b, [seg] + q, legacy, current, pos);
        assert Alike(a, b, [seg] + q, current, pos);
      }
    }
    if Agree(x, y, legacy, current, inner) {
      forall p | p != [] && p[0] == seg && Exposed(a, p, legacy, current, pos) && Exposed(b, p, legacy, current, pos)
        ensures Alike(a, b, p, current, pos)
      {
        var q := p[1..];
        assert p == [seg] + q;
        TryAtStep(a, seg, q);
        TryAtStep(b, seg, q);
        PosStep(seg, q, pos);
        assert Alike(x, y, q, current, inner);
      }
    }
  }

  /** Under a key no text can carry, the question is what the current rules see of the member. */
  lemma AgreeAtExposed(a: Value, b: Value, k: string, legacy: Rules, current: Rules, pos: Pos)
    requires a.Obj? && b.Obj? && Member(a, k) != Undefined && Member(b, k) != Undefined
    requires Kept(k, legacy, current, pos) && !PlainKey(k)
    ensures AgreeUnder(a, b, Key(k), legacy, current, pos)
            <==> Normalize(Member(a, k), current, InKey(pos, k)) == Normalize(Member(b, k), current, InKey(pos, k))
  {
    hide PlainKey, Normalize, TryAt, PosAt;
    var p := [Key(k)];
    assert [Key(k)] + [] == p;
    TryAtStep(a, Key(k), []);
    TryAtStep(b, Key(k), []);
    PosStep(Key(k), [], pos);
    TryAtHere(Member(a, k));
    TryAtHere(Member(b, k));
    PosHere(InKey(pos, k));
    assert Exposed(a, p, legacy, current, pos) && Exposed(b, p, legacy, current, pos);
    if Alike(a, b, p, current, pos) {
      forall q | q != [] && q[0] == Key(k) && Exposed(a, q, legacy, current, pos) ensures q == p {
      }
    }
  }

  lemma TryAtHere(v: Value)
    ensures TryAt(v, []) == v
  {
  }

  lemma PosHere(pos: Pos)
    ensures PosAt([], pos) == pos
  {
  }

  // ----- equal legacy forms: the views agree exactly when the exposed values do

  lemma {:induction false} ViewDecided(a: Value, b: Value, legacy: Rules, current: Rules, pos: Pos)
    requires WellFormed(a) && WellFormed(b) && SameTexts(legacy, current)
             && Normalize(a, legacy, pos) == Normalize(b, legacy, pos)
    ensures View(a, legacy, current, pos) == View(b, legacy, current, pos) <==> Agree(a, b, legacy, current, pos)
    decreases a, 2
  {
    hide NormFields, ViewFields, SortByKey, Alike, PlainKey, Lookup;
    if a.Arr? {
      ItemsDecided(a, b, legacy, current, pos);
    } else if a.Obj? {
      ObjectsNormalEqual(a.fields, b.fields, legacy, legacy, pos);
      ObjectsViewEqual(a.fields, b.fields, legacy, current, pos);
      forall k ensures ViewMember(a.fields, k, legacy, current, pos) == ViewMember(b.fields, k, legacy, current, pos)
                       <==> AgreeUnder(a, b, Key(k), legacy, current, pos)
      {
        assert ShownMember(a.fields, k, legacy, pos) == ShownMember(b.fields, k, legacy, pos);
        MemberDecided(a, b, k, legacy, current, pos);
      }
      AgreeByKey(a, b, legacy, current, pos);
    } else {
      LeafViews(a, b, legacy, current, pos);
    }
  }

  lemma LeafViews(a: Value, b: Value, legacy: Rules, current: Rules, pos: Pos)
    requires !a.Arr? && !a.Obj? && SameTexts(legacy, current) && Normalize(a, legacy, pos) == Normalize(b, legacy, pos)
    ensures View(a, legacy, current, pos) == View(b, legacy, current, pos) && Agree(a, b, legacy, current, pos)
  {
  }

  lemma AgreeByKey(a: Value, b: Value, legacy: Rules, current: Rules, pos: Pos)
    requires a.Obj? && b.Obj?
    ensures Agree(a, b, legacy, current, pos) <==> forall k :: AgreeUnder(a, b, Key(k), legacy, current, pos)
  {
    hide Alike, PlainKey, Kept;
    if forall k :: AgreeUnder(a, b, Key(k), legacy, current, pos) {
      forall p: Path | Exposed(a, p, legacy, current, pos) && Exposed(b, p, legacy, current, pos)
        ensures Alike(a, b, p, current, pos) {
        assert AgreeUnder(a, b, Key(p[0].key), legacy, current, pos);
      }
    }
  }

  lemma {:induction false} MemberDecided(a: Value, b: Value, k: string, legacy: Rules, current: Rules, pos: Pos)
    requires a.Obj? && b.Obj? && WellFormed(a) && WellFormed(b) && SameTexts(legacy, current)
    requires ShownMember(a.fields, k, legacy, pos) == ShownMember(b.fields, k, legacy, pos)
    ensures ViewMember(a.fields, k, legacy, current, pos) == ViewMember(b.fields, k, legacy, current, pos)
            <==> AgreeUnder(a, b, Key(k), legacy, current, pos)
    decreases a, 1
  {
    hide View, Normalize, Alike, PlainKey, Lookup;
    var x, y := Member(a, k), Member(b, k);
    if Kept(k, legacy, current, pos) && x != Undefined && y != Undefined {
      if PlainKey(k) {
        AgreeBelow(a, b, Key(k), x, y, InKey(pos, k), legacy, current, pos);
        LookupWellFormed(a, k);
        LookupWellFormed(b, k);
        var i :| 0 <= i < |a.fields| && a.fields[i].key == k && a.fields[i].val == x;
        ViewDecided(a.fields[i].val, y, legacy, current, InKey(pos, k));
      } else {
        AgreeAtExposed(a, b, k, legacy, current, pos);
      }
    }
  }

  lemma {:induction false} ItemsDecided(a: Value, b: Value, legacy: Rules, current: Rules, pos: Pos)
    requires a.Arr? && WellFormed(a) && WellFormed(b) && SameTexts(legacy, current)
             && Normalize(a, legacy, pos) == Normalize(b, legacy, pos)
    ensures View(a, legacy, current, pos) == View(b, legacy, current, pos) <==> Agree(a, b, legacy, current, pos)
    decreases a, 1
  {
    hide Alike, PlainKey;
    var na, nb := NormItems(a.items, legacy, pos), NormItems(b.items, legacy, pos);
    assert na == nb && |a.items| == |b.items|;
    var va, vb := ViewItems(a.items, legacy, current, pos), ViewItems(b.items, legacy, current, pos);
    forall i | 0 <= i < |a.items| ensures va[i] == vb[i] <==> AgreeUnder(a, b, Index(i), legacy, current, pos) {
      assert na[i] == nb[i];
      ViewDecided(a.items[i], b.items[i], legacy, current, InItem(pos));
      AgreeBelow(a, b, Index(i), a.items[i], b.items[i], InItem(pos), legacy, current, pos);
    }
    if Agree(a, b, legacy, current, pos) {
      forall i | 0 <= i < |a.items| ensures va[i] == vb[i] { assert AgreeUnder(a, b, Index(i), legacy, current, pos); }
      assert va == vb;
    }
    if va == vb {
      forall p: Path | Exposed(a, p, legacy, current, pos) && Exposed(b, p, legacy, current, pos)
        ensures Alike(a, b, p, current, pos) {
        assert va[p[0].index] == vb[p[0].index];
        assert AgreeUnder(a, b, Index(p[0].index), legacy, current, pos);
      }
    }
  }

  // ----- plain reports agree

  /** Below the top level the current rules drop nothing the legacy ones keep. */
  ghost predicate DeepWithin(current: Rules, legacy: Rules)
  {
    forall k: string, d: nat, p: Option<string> :: d > 0 && current.excluded(k, d, p) ==> legacy.excluded(k, d, p)
  }

  lemma {:induction false} NothingMaterial(v: Value, legacy: Rules, current: Rules, pos: Pos)
    requires WellFormed(v) && SameTexts(legacy, current) && DeepWithin(current, legacy) && pos.depth > 0
    requires forall q :: !Material(v, q, legacy, current, pos)
    ensures Normalize(v, current, pos) == Normalize(v, legacy, pos)
    decreases v
  {
    hide Lookup, NormFields, SortByKey;
    match v
    case Arr(items) =>
      forall i | 0 <= i < |items|
        ensures Normalize(items[i], current, InItem(pos)) == Normalize(items[i], legacy, InItem(pos)) {
        forall q ensures !Material(items[i], q, legacy, current, InItem(pos)) {
          assert ([Index(i)] + q)[1..] == q;
          assert !Material(v, [Index(i)] + q, legacy, current, pos);
        }
        NothingMaterial(items[i], legacy, current, InItem(pos));
      }
      assert NormItems(items, current, pos) == NormItems(items, legacy, pos);
    case Obj(fields) =>
      forall k ensures ShownMember(fields, k, current, pos) == ShownMember(fields, k, legacy, pos) {
        if Lookup(fields, k).Some? && !Lookup(fields, k).value.Undefined? {
          var i :| 0 <= i < |fields| && fields[i].key == k && fields[i].val == Lookup(fields, k).value;
          var x := fields[i].val;
          if legacy.excluded(k, pos.depth, pos.parent) {
            assert !Material(v, [Key(k)], legacy, current, pos);
          } else {
            forall q ensures !Material(x, q, legacy, current, InKey(pos, k)) {
              assert ([Key(k)] + q)[1..] == q;
              assert !Material(v, [Key(k)] + q, legacy, current, pos);
            }
            NothingMaterial(x, legacy, current, InKey(pos, k));
          }
        }
      }
      ObjectsNormalEqual(fields, fields, current, legacy, pos);
    case _ =>
  }

  /** Along an exposed path two values with one legacy form keep having one. */
  lemma {:induction false} ExposedSame(a: Value, b: Value, p: Path, legacy: Rules, current: Rules, pos: Pos)
    requires WellFormed(a) && WellFormed(b) && Normalize(a, legacy, pos) == Normalize(b, legacy, pos)
    requires Exposed(a, p, legacy, current, pos) && Exposed(b, p, legacy, current, pos)
    ensures var inner := PosAt(p, pos);
            && inner.depth > 0
            && Normalize(TryAt(a, p), legacy, inner) == Normalize(TryAt(b, p), legacy, inner)
    ensures WellFormed(TryAt(a, p)) && WellFormed(TryAt(b, p)) && TryAt(a, p) != Undefined && TryAt(b, p) != Undefined
    decreases p
  {
    hide Normalize, PlainKey, TryAt, PosAt, Lookup;
    assert p == [p[0]] + p[1..];
    TryAtStep(a, p[0], p[1..]);
    TryAtStep(b, p[0], p[1..]);
    PosStep(p[0], p[1..], pos);
    match p[0]
    case Key(k) =>
      var x, y := Member(a, k), Member(b, k);
      ObjectsNormalEqual(a.fields, b.fields, legacy, legacy, pos);
      assert ShownMember(a.fields, k, legacy, pos) == ShownMember(b.fields, k, legacy, pos);
      LookupWellFormed(a, k);
      LookupWellFormed(b, k);
      if PlainKey(k) {
        ExposedSame(x, y, p[1..], legacy, current, InKey(pos, k));
      } else {
        assert p[1..] == [];
        TryAtHere(x);
        TryAtHere(y);
        PosHere(InKey(pos, k));
      }
    case Index(i) =>
      SameItems(a.items, b.items, i, legacy, pos);
      ExposedSame(a.items[i], b.items[i], p[1..], legacy, current, InItem(pos));
  }

  lemma SameItems(xs: seq<Value>, ys: seq<Value>, i: nat, legacy: Rules, pos: Pos)
    requires Normalize(Arr(xs), legacy, pos) == Normalize(Arr(ys), legacy, pos) && i < |xs|
    ensures i < |ys| && Normalize(xs[i], legacy, InItem(pos)) == Normalize(ys[i], legacy, InItem(pos))
  {
    assert NormItems(xs, legacy, pos)[i] == NormItems(ys, legacy, pos)[i];
  }

  /** What is unauthenticated below an exposed path is reported at a path that is not plain. */
  lemma {:induction false} ExposedReports(v: Value, p: Path, q: Path, legacy: Rules, current: Rules, pos: Pos)
    requires Exposed(v, p, legacy, current, pos) && Material(TryAt(v, p), q, legacy, current, PosAt(p, pos))
    ensures Material(v, p + q, legacy, current, pos) && !PlainPath(p + q)
    decreases p
  {
    hide PlainKey, TryAt, PosAt, Lookup;
    assert p == [p[0]] + p[1..];
    TryAtStep(v, p[0], p[1..]);
    PosStep(p[0], p[1..], pos);
    assert (p + q)[0] == p[0] && (p + q)[1..] == p[1..] + q;
    match p[0]
    case Key(k) =>
      if PlainKey(k) {
        ExposedReports(Member(v, k), p[1..], q, legacy, current, InKey(pos, k));
        PlainTail(p + q);
      } else {
        assert p[1..] == [];
        assert p[1..] + q == q;
        TryAtHere(Member(v, k));
        PosHere(InKey(pos, k));
        assert !PlainPath(p + q) by { assert (p + q)[0].Key? && !PlainKey((p + q)[0].key); }
      }
    case Index(i) =>
      ExposedReports(v.items[i], p[1..], q, legacy, current, InItem(pos));
      PlainTail(p + q);
  }

  lemma PlainTail(p: Path)
    requires p != []
    ensures PlainPath(p) ==> PlainPath(p[1..])
  {
    hide PlainKey;
    assert forall j :: 0 <= j < |p[1..]| ==> p[1..][j] == p[j + 1];
  }

  lemma PlainReportsAgree(a: Value, b: Value, legacy: Rules, current: Rules, pos: Pos)
    requires WellFormed(a) && WellFormed(b) && SameTexts(legacy, current) && DeepWithin(current, legacy)
    requires Normalize(a, legacy, pos) == Normalize(b, legacy, pos)
    requires forall p :: Material(a, p, legacy, current, pos) || Material(b, p, legacy, current, pos) ==> PlainPath(p)
    ensures Agree(a, b, legacy, current, pos)
  {
    hide Exposed, Material, PlainPath, TryAt, PosAt, Normalize, SameTexts, DeepWithin, WellFormed;
    forall p: Path | Exposed(a, p, legacy, current, pos) && Exposed(b, p, legacy, current, pos)
      ensures Alike(a, b, p, current, pos) {
      ExposedSame(a, b, p, legacy, current, pos);
      forall q ensures !Material(TryAt(a, p), q, legacy, current, PosAt(p, pos))
        && !Material(TryAt(b, p), q, legacy, current, PosAt(p, pos)) {
        if Material(TryAt(a, p), q, legacy, current, PosAt(p, pos)) { ExposedReports(a, p, q, legacy, current, pos); }
        if Material(TryAt(b, p), q, legacy, current, PosAt(p, pos)) { ExposedReports(b, p, q, legacy, current, pos); }
      }
      NothingMaterial(TryAt(a, p), legacy, current, PosAt(p, pos));
      NothingMaterial(TryAt(b, p), legacy, current, PosAt(p, pos));
    }
  }

  // ----- the members of a re-issue

  /** The stripped body shows, under every key but hashVersion, the source's view. */
  lemma BodyShowsView(source: Value, version: int, pf: Platform, k: string)
    requires source.Obj? && WellFormed(source) && version < 5
    ensures var body := StripSource(source, version, pf).body;
            && body.Obj? && WellFormed(body)
            && (k != "hashVersion" ==>
                  ShownMember(body.fields, k, RulesOf(5, pf.nfc), TOP)
                    == ViewMember(source.fields, k, RulesOf(version, pf.nfc), RulesOf(5, pf.nfc), TOP))
  {
    hide StripSource, StripTexts, RulesOf, Material, View, ViewMember, ShownMember, TryAt, PlainPath, ByPlainName,
         ParsePath;
    var legacy, current := RulesOf(version, pf.nfc), RulesOf(5, pf.nfc);
    var body := StripSource(source, version, pf).body;
    StripSourceTo(source, version, pf);
    LegacyDropsByName(version, pf.nfc);
    ObjectsViewEqual(body.fields, source.fields, legacy, current, TOP);
    if k != "hashVersion" {
      forall p | p != [] && p[0] == Key(k) && Material(body, p, legacy, current, TOP) ensures !PlainPath(p) {
        StaysReported(body, p, legacy, current);
        if PlainPath(p) {
          assert Reported(source, p, version, pf);
          PlainIsGone(source, version, pf, p);
        }
      }
      CleanMember(body, k, legacy, current, TOP);
    }
  }

  lemma StaysReported(body: Value, p: Path, legacy: Rules, current: Rules)
    requires Material(body, p, legacy, current, TOP)
    ensures TryAt(body, p) != Undefined
  {
    MaterialUnauthenticated(body, p, legacy, current, TOP);
  }

  /** The top-level members a re-issue rebuilds or never takes over. */
  predicate Rebuilt(k: string)
  {
    Restamped(k) || k == "hashVersion" || k == "lineage" || k == "legacyClaims" || k == "originalContentHash"
      || k == "artifactId"
  }

  lemma FinalShows(final: seq<Pair<Value>>, body: seq<Pair<Value>>, lineage: Value, r5: Rules, k: string)
    requires ReissueMembers(final, body, lineage) && !Restamped(k)
    ensures ShownMember(final, k, r5, TOP)
            == if r5.excluded(k, 0, None) || k == "legacyClaims" || k == "originalContentHash" || k == "artifactId" then
              None
               else if k == "hashVersion" then Some(Lit("5"))
               else if k == "lineage" then Shown(lineage, r5, InKey(TOP, "lineage"), true)
               else ShownMember(body, k, r5, TOP)
  {
    NamesDistinct();
    assert Lookup(final, k) == if k == "legacyClaims" then None else if k == "hashVersion" then Some(Num("5"))
                               else if k == "lineage" then Some(lineage) else BareMember(body, k);
  }

  /**
   * Two re-issues show the same exactly when, outside what is rebuilt, their bodies do, and their lineage blocks do.
   */
  lemma FinalsSame(fa: seq<Pair<Value>>, ba: seq<Pair<Value>>, la: Value, fb: seq<Pair<Value>>, bb: seq<Pair<Value>>,
                   lb: Value, r5: Rules)
    requires ReissueMembers(fa, ba, la) && ReissueMembers(fb, bb, lb) && !r5.excluded("lineage", 0, None)
    requires forall k :: Restamped(k) ==> r5.excluded(k, 0, None)
    ensures SameShown(fa, fb, r5, r5, TOP) <==>
              && Shown(la, r5, InKey(TOP, "lineage"), true) == Shown(lb, r5, InKey(TOP, "lineage"), true)
              && (forall k :: !Rebuilt(k) ==> ShownMember(ba, k, r5, TOP) == ShownMember(bb, k, r5, TOP))
  {
    hide Lookup, ReissueMembers, Shown;
    NamesDistinct();
    LineageIsNoStamp();
    FinalShows(fa, ba, la, r5, "lineage");
    FinalShows(fb, bb, lb, r5, "lineage");
    if SameShown(fa, fb, r5, r5, TOP) {
      assert ShownMember(fa, "lineage", r5, TOP) == ShownMember(fb, "lineage", r5, TOP);
      forall k | !Rebuilt(k) ensures ShownMember(ba, k, r5, TOP) == ShownMember(bb, k, r5, TOP) {
        assert ShownMember(fa, k, r5, TOP) == ShownMember(fb, k, r5, TOP);
        FinalShows(fa, ba, la, r5, k);
        FinalShows(fb, bb, lb, r5, k);
      }
    }
    if Shown(la, r5, InKey(TOP, "lineage"), true) == Shown(lb, r5, InKey(TOP, "lineage"), true)
       && (forall k :: !Rebuilt(k) ==> ShownMember(ba, k, r5, TOP) == ShownMember(bb, k, r5, TOP)) {
      forall k ensures ShownMember(fa, k, r5, TOP) == ShownMember(fb, k, r5, TOP) {
        if !Restamped(k) {
          FinalShows(fa, ba, la, r5, k);
          FinalShows(fb, bb, lb, r5, k);
        }
      }
    }
  }

  lemma LineageIsNoStamp()
    ensures !Restamped("lineage")
  {
  }

  // ----- re-issues are well formed, so that their forms decide

  /** Adding one to a number gives a number. */
  ghost predicate CountsInNumbers(pf: Platform)
  {
    forall t: string :: NumberText(pf.plusOne(t))
  }

  ghost predicate AllWellFormed(fields: seq<Pair<Value>>)
  {
    forall p :: p in fields ==> WellFormed(p.val)
  }

  lemma PutWellFormed(fields: seq<Pair<Value>>, k: string, x: Value)
    requires DistinctKeys(fields) && AllWellFormed(fields) && WellFormed(x)
    ensures DistinctKeys(PutKey(fields, k, x)) && AllWellFormed(PutKey(fields, k, x))
  {
    hide PutKey, WellFormed;
    PutKeyLookup(fields, k, x);
  }

  lemma RemoveWellFormed(fields: seq<Pair<Value>>, k: string)
    requires DistinctKeys(fields) && AllWellFormed(fields)
    ensures DistinctKeys(RemoveKey(fields, k)) && AllWellFormed(RemoveKey(fields, k))
  {
    hide RemoveKey, WellFormed;
    RemoveKeyLookup(fields, k);
  }

  lemma BareWellFormed(fields: seq<Pair<Value>>)
    requires DistinctKeys(fields) && AllWellFormed(fields)
    ensures DistinctKeys(Bare(fields)) && AllWellFormed(Bare(fields))
  {
    hide RemoveKey, DistinctKeys, AllWellFormed;
    RemoveWellFormed(fields, "artifactId");
    var f1 := if Member(Obj(fields), "artifactId").Undefined? then fields else RemoveKey(fields, "artifactId");
    RemoveWellFormed(f1, "planId");
    var f2 := RemoveKey(f1, "planId");
    RemoveWellFormed(f2, "signedId");
    var f3 := RemoveKey(f2, "signedId");
    RemoveWellFormed(f3, "contentHash");
    RemoveWellFormed(RemoveKey(f3, "contentHash"), "originalContentHash");
  }

  /** All members but the record of claims are well formed. */
  ghost predicate WellFormedBut(fields: seq<Pair<Value>>, except: string)
  {
    forall p :: p in fields ==> p.key == except || WellFormed(p.val)
  }

  lemma PutBut(fields: seq<Pair<Value>>, k: string, x: Value, except: string)
    requires DistinctKeys(fields) && WellFormedBut(fields, except) && (k == except || WellFormed(x))
    ensures DistinctKeys(PutKey(fields, k, x)) && WellFormedBut(PutKey(fields, k, x), except)
  {
    hide PutKey, WellFormed;
    PutKeyLookup(fields, k, x);
  }

  lemma UnsealedWellFormed(fields: seq<Pair<Value>>, lineage: Value, claims: Option<Value>)
    requires DistinctKeys(fields) && AllWellFormed(fields) && WellFormed(lineage)
    ensures DistinctKeys(Unsealed(fields, lineage, claims))
            && WellFormedBut(Unsealed(fields, lineage, claims), "legacyClaims")
  {
    hide PutKey, RemoveKey, Bare, WellFormed, DistinctKeys;
    BareWellFormed(fields);
    PutWellFormed(Bare(fields), "lineage", lineage);
    var f1 := PutKey(Bare(fields), "lineage", lineage);
    RemoveWellFormed(f1, "legacyClaims");
    if claims.Some? { PutBut(f1, "legacyClaims", claims.value, "legacyClaims"); }
    var f2 := match claims case Some(c) => PutKey(f1, "legacyClaims", c) case None => RemoveKey(f1, "legacyClaims");
    FiveIsWellFormed();
    PutBut(f2, "hashVersion", Num("5"), "legacyClaims");
  }

  lemma FiveIsWellFormed()
    ensures WellFormed(Num("5"))
  {
  }

  lemma TextsAreWellFormed(s: string)
    ensures WellFormed(Str(s))
  {
  }

  lemma SealedWellFormed(fields: seq<Pair<Value>>, lineage: Value, hash: string)
    requires DistinctKeys(fields) && WellFormedBut(fields, "legacyClaims") && WellFormed(lineage)
    ensures DistinctKeys(Sealed(fields, lineage, hash)) && WellFormedBut(Sealed(fields, lineage, hash), "legacyClaims")
  {
    hide PutKey, WellFormed, DistinctKeys, Take16, Member, WellFormedBut;
    TextsAreWellFormed(hash);
    PutBut(fields, "contentHash", Str(hash), "legacyClaims");
    var f1 := PutKey(fields, "contentHash", Str(hash));
    PutBut(f1, "lineage", lineage, "legacyClaims");
    var f2 := PutKey(f1, "lineage", lineage);
    TextsAreWellFormed("plan-" + Take16(hash));
    TextsAreWellFormed("signed-" + Take16(hash));
    PutBut(f2, "planId", Str("plan-" + Take16(hash)), "legacyClaims");
    var f3 := PutKey(f2, "planId", Str("plan-" + Take16(hash)));
    PutBut(f2, "signedId", Str("signed-" + Take16(hash)), "legacyClaims");
    PutBut(f3, "signedId", Str("signed-" + Take16(hash)), "legacyClaims");
  }

  lemma WithoutClaimsWellFormed(fields: seq<Pair<Value>>)
    requires DistinctKeys(fields) && WellFormedBut(fields, "legacyClaims")
    ensures WellFormed(Obj(RemoveKey(fields, "legacyClaims")))
  {
    hide RemoveKey, Lookup;
    RemoveKeyLookup(fields, "legacyClaims");
    var gs := RemoveKey(fields, "legacyClaims");
    forall i | 0 <= i < |gs| ensures WellFormed(gs[i].val) {
      LookupAt(gs, i);
      assert gs[i] in fields;
    }
  }

  lemma LineageWellFormed(source: Value, verified: VerifiedSource, pf: Platform, own: string)
    requires CountsInNumbers(pf)
    ensures WellFormed(ReissueLineage(source, verified, pf, own))
  {
    hide Carried, PreviousSequence;
    var fs := ReissueLineage(source, verified, pf, own).fields;
    LineageKeysDiffer();
    assert DistinctKeys(fs);
  }

  lemma LineageKeysDiffer()
    ensures "artifactId" != "lineageId" && "artifactId" != "parentArtifactId" && "artifactId" != "rootArtifactId"
            && "artifactId" != "sequence"
    ensures "lineageId" != "parentArtifactId" && "lineageId" != "rootArtifactId" && "lineageId" != "sequence"
    ensures "parentArtifactId" != "rootArtifactId" && "parentArtifactId" != "sequence" && "rootArtifactId" != "sequence"
  {
    assert |"artifactId"| == 10 && |"lineageId"| == 9 && |"parentArtifactId"| == 16 && |"rootArtifactId"| == 14
           && |"sequence"| == 8;
  }

  lemma ReissueWellFormed(source: Value, verified: VerifiedSource, pf: Platform)
    requires source.Obj? && WellFormed(source) && verified.hashVersion < 5 && CountsInNumbers(pf)
    ensures WellFormed(WithoutClaims(ReissueOf(source, verified, pf).artifact))
            && ReissueOf(source, verified, pf).artifact.Obj?
  {
    hide StripSource, Unsealed, Sealed, ReissueLineage, ContentHash, RemoveKey, ClaimsOf, LegacyClaims,
         CountsInNumbers, ShownMember, ViewMember;
    BodyShowsView(source, verified.hashVersion, pf, "");
    var s := StripSource(source, verified.hashVersion, pf);
    var claims := ClaimsOf(s);
    var block := if claims == [] then None else Some(LegacyClaims(verified, claims));
    var body := Unsealed(s.body.fields, ReissueLineage(source, verified, pf, ""), block);
    var hash := ContentHash(Obj(body), 5, pf);
    FieldsWellFormed(s.body);
    LineageWellFormed(source, verified, pf, "");
    LineageWellFormed(source, verified, pf, hash);
    UnsealedWellFormed(s.body.fields, ReissueLineage(source, verified, pf, ""), block);
    SealedWellFormed(body, ReissueLineage(source, verified, pf, hash), hash);
    WithoutClaimsWellFormed(Sealed(body, ReissueLineage(source, verified, pf, hash), hash));
  }

  lemma FieldsWellFormed(v: Value)
    requires v.Obj? && WellFormed(v)
    ensures DistinctKeys(v.fields) && AllWellFormed(v.fields)
  {
  }

  // ----- the lineage block

  lemma SequenceShown(pf: Platform)
    ensures !RulesOf(5, pf.nfc).excluded("sequence", 1, Some("lineage"))
            && !RulesOf(5, pf.nfc).excluded("lineage", 0, None)
  {
    assert !V5Unauthenticated("lineage") && !V5DerivedLabel("lineage");
  }

  /** Whatever the rest of the blocks, different sequence numbers show. */
  lemma BlocksShowSequence(a: Value, b: Value, va: VerifiedSource, vb: VerifiedSource, pf: Platform, ha: string,
                           hb: string)
    requires var r5, pos := RulesOf(5, pf.nfc), InKey(TOP, "lineage");
             Shown(ReissueLineage(a, va, pf, ha), r5, pos, true) == Shown(ReissueLineage(b, vb, pf, hb), r5, pos, true)
    ensures pf.plusOne(PreviousSequence(a)) == pf.plusOne(PreviousSequence(b))
  {
    hide PreviousSequence, RulesOf, NormFields, SortByKey, ReissueLineage, Lookup;
    var r5, pos := RulesOf(5, pf.nfc), InKey(TOP, "lineage");
    SequenceShown(pf);
    BlockSequence(a, va, pf, ha);
    BlockSequence(b, vb, pf, hb);
    var fa, fb := ReissueLineage(a, va, pf, ha).fields, ReissueLineage(b, vb, pf, hb).fields;
    ObjectsNormalEqual(fa, fb, r5, r5, pos);
    assert ShownMember(fa, "sequence", r5, pos) == ShownMember(fb, "sequence", r5, pos);
  }

  lemma BlockSequence(source: Value, verified: VerifiedSource, pf: Platform, own: string)
    ensures var l := ReissueLineage(source, verified, pf, own);
            l.Obj? && DistinctKeys(l.fields)
              && Lookup(l.fields, "sequence") == Some(Num(pf.plusOne(PreviousSequence(source))))
  {
    hide Carried, PreviousSequence, Lookup;
    var fs := ReissueLineage(source, verified, pf, own).fields;
    LineageKeysDiffer();
    assert DistinctKeys(fs);
    LookupAt(fs, 4);
  }

  lemma LineageSame(a: Value, b: Value, verified: VerifiedSource, pf: Platform)
    requires verified.hashVersion == 3 && pf.plusOne(PreviousSequence(a)) == pf.plusOne(PreviousSequence(b))
    ensures forall own :: ReissueLineage(a, verified, pf, own) == ReissueLineage(b, verified, pf, own)
  {
    hide PreviousSequence, Member;
  }

  lemma BlocksHideOwn(a: Value, b: Value, verified: VerifiedSource, pf: Platform, ha: string, hb: string)
    requires forall own :: ReissueLineage(a, verified, pf, own) == ReissueLineage(b, verified, pf, own)
    ensures var r5, pos := RulesOf(5, pf.nfc), InKey(TOP, "lineage");
            Shown(ReissueLineage(a, verified, pf, ha), r5, pos, true)
              == Shown(ReissueLineage(b, verified, pf, hb), r5, pos, true)
  {
    hide Normalize, RulesOf, ReissueLineage;
    LineageOwnHidden(a, verified, pf, ha);
    LineageOwnHidden(b, verified, pf, hb);
    assert ReissueLineage(a, verified, pf, "") == ReissueLineage(b, verified, pf, "");
    BlocksAreObjects(a, verified, pf, ha);
    BlocksAreObjects(b, verified, pf, hb);
  }

  lemma BlocksAreObjects(a: Value, verified: VerifiedSource, pf: Platform, own: string)
    ensures ReissueLineage(a, verified, pf, own).Obj?
  {
  }

  /** The lineage blocks show the same exactly when the sequence counts on alike; version 4 authenticates it. */
  lemma BlocksDecided(a: Value, b: Value, verified: VerifiedSource, pf: Platform, ha: string, hb: string)
    requires a.Obj? && b.Obj? && WellFormed(a) && WellFormed(b) && HexStable(pf.nfc)
             && (verified.hashVersion == 3 || verified.hashVersion == 4)
    requires SameShown(a.fields, b.fields, RulesOf(verified.hashVersion, pf.nfc), RulesOf(verified.hashVersion, pf.nfc),
                       TOP)
    ensures var r5, pos := RulesOf(5, pf.nfc), InKey(TOP, "lineage");
            Shown(ReissueLineage(a, verified, pf, ha), r5, pos, true)
              == Shown(ReissueLineage(b, verified, pf, hb), r5, pos, true)
            <==> SequencesAlike(a, b, verified.hashVersion, pf)
  {
    hide RulesOf, ReissueLineage, SameShown, HexStable, PreviousSequence, Normalize, WellFormed;
    var r5, pos := RulesOf(5, pf.nfc), InKey(TOP, "lineage");
    if Shown(ReissueLineage(a, verified, pf, ha), r5, pos, true)
      == Shown(ReissueLineage(b, verified, pf, hb), r5, pos, true) {
      BlocksShowSequence(a, b, verified, verified, pf, ha, hb);
    }
    if verified.hashVersion == 4 {
      forall own ensures ReissueLineage(a, verified, pf, own) == ReissueLineage(b, verified, pf, own) {
        LineageDetermined(a, b, verified, pf, own);
      }
      BlocksHideOwn(a, b, verified, pf, ha, hb);
    } else if SequencesAlike(a, b, 3, pf) {
      LineageSame(a, b, verified, pf);
      BlocksHideOwn(a, b, verified, pf, ha, hb);
    }
  }

  /** A version-3 sequence, which that version left out of its form, counts on to the same number. */
  predicate SequencesAlike(a: Value, b: Value, version: int, pf: Platform)
  {
    version == 3 ==> pf.plusOne(PreviousSequence(a)) == pf.plusOne(PreviousSequence(b))
  }

  // ----- the theorems

  /** Outside what is rebuilt, version 5 sees the same at every exposed path of the two sources. */
  ghost predicate AgreeOutside(a: Value, b: Value, version: int, pf: Platform)
  {
    forall k :: !Rebuilt(k) ==> AgreeUnder(a, b, Key(k), RulesOf(version, pf.nfc), RulesOf(5, pf.nfc), TOP)
  }

  ghost function ReissuedForm(source: Value, pf: Platform): Option<string>
    requires VerifyMigrationSource(source, pf).Ok?
  {
    CanonicalForm(WithoutClaims(ReissueOf(source, VerifyMigrationSource(source, pf).value, pf).artifact), 5, pf.nfc)
  }

  lemma SameTextsSince3(version: int, pf: Platform)
    requires version == 3 || version == 4
    ensures SameTexts(RulesOf(version, pf.nfc), RulesOf(5, pf.nfc))
  {
    hide V4Exclusion, SemanticExclusion, V5Unauthenticated, V5DerivedLabel, StrictPathKey;
  }

  /** Verified sources of one version with one form are verified as the same. */
  lemma SameVerified(a: Value, b: Value, version: int, pf: Platform)
    requires VerifyMigrationSource(a, pf).Ok? && VerifyMigrationSource(b, pf).Ok?
    requires DeclaredVersion(a) == Some(version) && DeclaredVersion(b) == Some(version)
    requires CanonicalForm(a, version, pf.nfc) == CanonicalForm(b, version, pf.nfc)
    ensures VerifyMigrationSource(a, pf) == VerifyMigrationSource(b, pf)
            && VerifyMigrationSource(a, pf).value.hashVersion == version
    ensures a.Obj? && b.Obj?
            && Serialize(a, RulesOf(version, pf.nfc), TOP) == Serialize(b, RulesOf(version, pf.nfc), TOP)
  {
    hide Serialize, RulesOf, Member;
  }

  lemma ViewsDecided(a: Value, b: Value, version: int, pf: Platform)
    requires a.Obj? && b.Obj? && WellFormed(a) && WellFormed(b) && (version == 3 || version == 4)
    requires SameShown(a.fields, b.fields, RulesOf(version, pf.nfc), RulesOf(version, pf.nfc), TOP)
    ensures StripSource(a, version, pf).body.Obj? && StripSource(b, version, pf).body.Obj?
    ensures AgreeOutside(a, b, version, pf) <==>
              forall k :: !Rebuilt(k) ==>
                ShownMember(StripSource(a, version, pf).body.fields, k, RulesOf(5, pf.nfc), TOP)
                                          == ShownMember(StripSource(b, version, pf).body.fields, k, RulesOf(5, pf.nfc),
                                                         TOP)
  {
    hide StripSource, RulesOf, ShownMember, ViewMember, AgreeUnder, WellFormed, SameTexts;
    SameTextsSince3(version, pf);
    BodyShowsView(a, version, pf, "");
    BodyShowsView(b, version, pf, "");
    forall k | !Rebuilt(k)
      ensures ShownMember(StripSource(a, version, pf).body.fields, k, RulesOf(5, pf.nfc), TOP)
              == ShownMember(StripSource(b, version, pf).body.fields, k, RulesOf(5, pf.nfc), TOP)
              <==> AgreeUnder(a, b, Key(k), RulesOf(version, pf.nfc), RulesOf(5, pf.nfc), TOP)
    {
      BodyShowsView(a, version, pf, k);
      BodyShowsView(b, version, pf, k);
      assert ShownMember(a.fields, k, RulesOf(version, pf.nfc), TOP)
             == ShownMember(b.fields, k, RulesOf(version, pf.nfc), TOP);
      MemberDecided(a, b, k, RulesOf(version, pf.nfc), RulesOf(5, pf.nfc), TOP);
    }
  }

  /**
   * Two verified sources of version 3 or 4 with one form are re-issued, apart from the record of claims, with one
   * version-5 form exactly when version 5 sees the same below their keys no path text can carry and, for version 3,
   * their sequences count on alike.
   */
  lemma ReissuesAlikeExactly(a: Value, b: Value, version: int, pf: Platform)
    requires WellFormed(a) && WellFormed(b) && HexStable(pf.nfc) && CountsInNumbers(pf)
             && (version == 3 || version == 4)
    requires VerifyMigrationSource(a, pf).Ok? && VerifyMigrationSource(b, pf).Ok?
    requires DeclaredVersion(a) == Some(version) && DeclaredVersion(b) == Some(version)
    requires CanonicalForm(a, version, pf.nfc) == CanonicalForm(b, version, pf.nfc)
    ensures VerifyMigrationSource(a, pf) == VerifyMigrationSource(b, pf)
    ensures ReissuedForm(a, pf) == ReissuedForm(b, pf) <==>
              AgreeOutside(a, b, version, pf) && SequencesAlike(a, b, version, pf)
  {
    hide VerifyMigrationSource, DeclaredVersion, CanonicalForm, HexStable, CountsInNumbers, RulesOf, ReissueOf,
         AgreeOutside, SequencesAlike, Serialize, Normalize, WithoutClaims, SameShown;
    SameVerified(a, b, version, pf);
    var legacy := RulesOf(version, pf.nfc);
    FormsDecideNormal(a, b, legacy, legacy, TOP, TOP);
    FieldsWellFormed(a);
    FieldsWellFormed(b);
    ObjectsNormalEqual(a.fields, b.fields, legacy, legacy, TOP);
    ReissuesDecided(a, b, VerifyMigrationSource(a, pf).value, pf);
  }

  lemma ReissuesDecided(a: Value, b: Value, verified: VerifiedSource, pf: Platform)
    requires a.Obj? && b.Obj? && WellFormed(a) && WellFormed(b) && HexStable(pf.nfc) && CountsInNumbers(pf)
    requires verified.hashVersion == 3 || verified.hashVersion == 4
    requires SameShown(a.fields, b.fields, RulesOf(verified.hashVersion, pf.nfc), RulesOf(verified.hashVersion, pf.nfc),
                       TOP)
    ensures CanonicalForm(WithoutClaims(ReissueOf(a, verified, pf).artifact), 5, pf.nfc)
            == CanonicalForm(WithoutClaims(ReissueOf(b, verified, pf).artifact), 5, pf.nfc)
            <==> AgreeOutside(a, b, verified.hashVersion, pf) && SequencesAlike(a, b, verified.hashVersion, pf)
  {
    hide CanonicalForm, HexStable, CountsInNumbers, RulesOf, ReissueOf, StripSource, ReissueLineage, AgreeOutside,
         SequencesAlike, Serialize, Normalize, WithoutClaims, ReissueMembers, SameShown, ShownMember, Shown,
         ViewMember;
    var version, current := verified.hashVersion, RulesOf(5, pf.nfc);
    BodyShowsView(a, version, pf, "");
    BodyShowsView(b, version, pf, "");
    var ha := ReissueHasMembers(a, verified, pf);
    var hb := ReissueHasMembers(b, verified, pf);
    var fa, fb := WithoutClaims(ReissueOf(a, verified, pf).artifact),
      WithoutClaims(ReissueOf(b, verified, pf).artifact);
    ReissueWellFormed(a, verified, pf);
    ReissueWellFormed(b, verified, pf);
    ViewsDecided(a, b, version, pf);
    BlocksDecided(a, b, verified, pf, ha, hb);
    V4Rules(pf);
    SequenceShown(pf);
    WithoutClaimsIsObject(ReissueOf(a, verified, pf).artifact);
    WithoutClaimsIsObject(ReissueOf(b, verified, pf).artifact);
    FinalsSame(fa.fields, StripSource(a, version, pf).body.fields, ReissueLineage(a, verified, pf, ha),
               fb.fields, StripSource(b, version, pf).body.fields, ReissueLineage(b, verified, pf, hb), current);
    NormalsDecide(fa, fb, pf);
  }

  lemma NormalsDecide(a: Value, b: Value, pf: Platform)
    requires a.Obj? && b.Obj? && WellFormed(a) && WellFormed(b)
    ensures CanonicalForm(a, 5, pf.nfc) == CanonicalForm(b, 5, pf.nfc) <==>
              SameShown(a.fields, b.fields, RulesOf(5, pf.nfc), RulesOf(5, pf.nfc), TOP)
  {
    hide Serialize, RulesOf, Normalize, SameShown, CanonicalForm;
    var current := RulesOf(5, pf.nfc);
    FieldsWellFormed(a);
    FieldsWellFormed(b);
    ObjectsNormalEqual(a.fields, b.fields, current, current, TOP);
    FormsDecideNormal(a, b, current, current, TOP, TOP);
    FormsAre(a, b, pf);
  }

  lemma WithoutClaimsIsObject(v: Value)
    requires v.Obj?
    ensures WithoutClaims(v).Obj?
  {
  }

  lemma FormsAre(a: Value, b: Value, pf: Platform)
    requires a.Obj? && b.Obj?
    ensures CanonicalForm(a, 5, pf.nfc) == CanonicalForm(b, 5, pf.nfc)
            <==> Serialize(a, RulesOf(5, pf.nfc), TOP) == Serialize(b, RulesOf(5, pf.nfc), TOP)
  {
    hide Serialize, RulesOf;
  }

  /** The two reports can be carried by path texts: then the sequence alone decides. */
  lemma PlainReissuesAlikeExactly(a: Value, b: Value, version: int, pf: Platform)
    requires WellFormed(a) && WellFormed(b) && HexStable(pf.nfc) && CountsInNumbers(pf)
             && (version == 3 || version == 4)
    requires VerifyMigrationSource(a, pf).Ok? && VerifyMigrationSource(b, pf).Ok?
    requires DeclaredVersion(a) == Some(version) && DeclaredVersion(b) == Some(version)
    requires CanonicalForm(a, version, pf.nfc) == CanonicalForm(b, version, pf.nfc)
    requires PlainReport(a, version, pf) && PlainReport(b, version, pf)
    ensures VerifyMigrationSource(a, pf) == VerifyMigrationSource(b, pf)
    ensures ReissuedForm(a, pf) == ReissuedForm(b, pf) <==> SequencesAlike(a, b, version, pf)
  {
    hide VerifyMigrationSource, DeclaredVersion, CanonicalForm, HexStable, CountsInNumbers, RulesOf, SequencesAlike,
         Serialize, Normalize, SameTexts, Material, PlainPath, AgreeUnder, DeepWithin, ReissuedForm;
    SameVerified(a, b, version, pf);
    var legacy, current := RulesOf(version, pf.nfc), RulesOf(5, pf.nfc);
    FormsDecideNormal(a, b, legacy, legacy, TOP, TOP);
    SameTextsSince3(version, pf);
    DeepDropsWithin(version, pf);
    PlainReportsAgree(a, b, legacy, current, TOP);
    AgreeByKey(a, b, legacy, current, TOP);
    ReissuesAlikeExactly(a, b, version, pf);
  }

  lemma DeepDropsWithin(version: int, pf: Platform)
    requires version < 5
    ensures DeepWithin(RulesOf(5, pf.nfc), RulesOf(version, pf.nfc))
  {
    hide V4Exclusion, SemanticExclusion, V5Unauthenticated, V5DerivedLabel;
    forall k: string, d: nat, p: Option<string> | d > 0 && RulesOf(5, pf.nfc).excluded(k, d, p)
      ensures RulesOf(version, pf.nfc).excluded(k, d, p) {
      ArtifactIdDropped(version, d, p);
    }
  }
}
