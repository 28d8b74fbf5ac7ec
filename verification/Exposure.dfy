/**
 * What stripping leaves of a legacy source in general, without assuming that path texts can carry its keys: a field
 * below a key they cannot carry is never stripped, and everything else the source version left unauthenticated is.
 */
module Exposure {
  import opened Common
  import opened Json
  import opened Canonical
  import opened Paths
  import opened HashVersions
  import opened LegacyFields
  import opened Prune
  import opened Migration
  import opened NonInterference

  // ----- texts are read as plain paths that end in the dropped key

  lemma {:induction false} ParsePlain(s: string)
    ensures PlainPath(ParsePath(s))
    decreases |s|
  {
    if s != [] {
      var n := NextSegment(s).1;
      ParsePlain(s[n..]);
      if !Separator(s[0]) {
        var k := s[..Run(s, false)];
        assert PlainKey(k);
      }
    }
  }

  lemma TailStops(s: string, k: string)
    requires s != []
    ensures NextSegment(s + "." + k).1 <= |s|
  {
    var t := s + "." + k;
    assert t[|s|] == '.';
    if Separator(t[0]) {
      var n := Run(t[1..], true);
      assert t[1..][|s| - 1] == '.';
    }
  }

  lemma {:induction false} ParseTail(s: string, k: string)
    requires PlainKey(k)
    ensures EndsInKey(ParsePath(s + "." + k)) && ParsePath(s + "." + k)[|ParsePath(s + "." + k)| - 1] == Key(k)
    decreases |s|
  {
    var t := s + "." + k;
    if s == [] {
      assert t[1..] == k && t[0] == '.';
      var n := Run(t[1..], true);
      assert NextSegment(t) == ([], 1);
      ParseOne(k);
    } else {
      TailStops(s, k);
      var n := NextSegment(t).1;
      assert t[n..] == s[n..] + "." + k;
      ParseTail(s[n..], k);
    }
  }

  lemma ParseOne(k: string)
    requires PlainKey(k)
    ensures ParsePath(k) == [Key(k)]
  {
    assert k + [] == k;
    ParseKey(k, []);
    ParseEnd();
  }

  lemma {:induction false} RenderTail(prefix: string, p: Path, k: string)
    ensures RenderFrom(prefix, p + [Key(k)]) == Extend(RenderFrom(prefix, p), Key(k))
    decreases p
  {
    if p == [] {
      assert p + [Key(k)] == [Key(k)] && [Key(k)][1..] == [];
    } else {
      assert (p + [Key(k)])[1..] == p[1..] + [Key(k)];
      RenderTail(Extend(prefix, p[0]), p[1..], k);
    }
  }

  /** A path that ends in a plain key is read back as a path that ends in it, whatever comes before. */
  lemma TextEndsAlike(p: Path)
    requires EndsInKey(p) && PlainKey(p[|p| - 1].key)
    ensures EndsInKey(ParsePath(Render(p))) && ParsePath(Render(p))[|ParsePath(Render(p))| - 1] == p[|p| - 1]
  {
    hide ParsePath, RenderFrom;
    var n, k := |p| - 1, p[|p| - 1].key;
    assert p == p[..n] + [Key(k)];
    RenderTail([], p[..n], k);
    var above := RenderFrom([], p[..n]);
    if above == [] { ParseOne(k); } else { ParseTail(above, k); }
  }

  // ----- legacy rules

  /** The rules drop keys by name, wherever they sit, and drop only names a path text can carry. */
  ghost predicate ByPlainName(legacy: Rules)
  {
    && (forall k: string, d: nat, p: Option<string> :: legacy.excluded(k, d, p) == legacy.excluded(k, 0, None))
    && (forall k: string :: legacy.excluded(k, 0, None) ==> PlainKey(k))
  }

  lemma PlainNames0()
    ensures PlainKey("artifactId") && PlainKey("cache") && PlainKey("confirmedAt") && PlainKey("contentHash")
    ensures PlainKey("createdAt") && PlainKey("dagContext") && PlainKey("debug") && PlainKey("deployedAt")
  {
  }

  lemma PlainNames1()
    ensures PlainKey("events") && PlainKey("executionId") && PlainKey("filePath") && PlainKey("file_mtime_ms")
    ensures PlainKey("file_path") && PlainKey("hardkasVersion") && PlainKey("hashVersion") && PlainKey("indexedAt")
  {
  }

  lemma PlainNames2()
    ensures PlainKey("lastViewedAt") && PlainKey("latencyMs") && PlainKey("lineage") && PlainKey("logs")
    ensures PlainKey("parentArtifactId") && PlainKey("planId") && PlainKey("receiptPath") && PlainKey("rpcHost")
  {
  }

  lemma PlainNames3()
    ensures PlainKey("rpcUrl") && PlainKey("signatureMetadata") && PlainKey("signedId") && PlainKey("sourceSignedId")
    ensures PlainKey("status") && PlainKey("submittedAt") && PlainKey("tracePath") && PlainKey("uiHints")
  {
  }

  lemma PlainNames4()
    ensures PlainKey("workspacePath")
  {
  }

  /** Every name the legacy versions drop can be carried by a path text. */
  lemma PlainNames(names: seq<string>)
    requires names == V4_SEMANTIC_EXCLUSIONS || names == SEMANTIC_EXCLUSIONS
    ensures forall k :: k in names ==> PlainKey(k)
  {
    hide PlainKey;
    PlainNames0();
    PlainNames1();
    PlainNames2();
    PlainNames3();
    PlainNames4();
  }

  lemma LegacyDropsByName(version: int, nfc: string -> string)
    requires version < 5
    ensures ByPlainName(RulesOf(version, nfc))
  {
    hide PlainKey, V4_SEMANTIC_EXCLUSIONS, SEMANTIC_EXCLUSIONS;
    PlainNames(V4_SEMANTIC_EXCLUSIONS);
    PlainNames(SEMANTIC_EXCLUSIONS);
  }

  /** Above its end, a reported path has only keys the legacy rules keep; its last key they drop. */
  lemma {:induction false} MaterialKeys(v: Value, p: Path, legacy: Rules, current: Rules, pos: Pos)
    requires Material(v, p, legacy, current, pos) && ByPlainName(legacy)
    ensures EndsInKey(p) && legacy.excluded(p[|p| - 1].key, 0, None)
    ensures forall j :: 0 <= j < |p| - 1 && p[j].Key? ==> !legacy.excluded(p[j].key, 0, None)
    decreases p
  {
    match p[0]
    case Key(k) =>
      assert legacy.excluded(k, pos.depth, pos.parent) == legacy.excluded(k, 0, None);
      if !legacy.excluded(k, pos.depth, pos.parent) {
        MaterialKeys(Member(v, k), p[1..], legacy, current, InKey(pos, k));
        assert forall j :: 0 < j < |p| ==> p[j] == p[1..][j - 1];
      }
    case Index(i) =>
      MaterialKeys(v.items[i], p[1..], legacy, current, InItem(pos));
      assert forall j :: 0 < j < |p| ==> p[j] == p[1..][j - 1];
  }

  /** A path a deletion may be at: plain, and ending in a key the legacy rules drop. */
  ghost predicate Strippable(r: Path, legacy: Rules)
  {
    PlainPath(r) && EndsInKey(r) && legacy.excluded(r[|r| - 1].key, 0, None)
  }

  lemma ReportedIsStrippable(v: Value, p: Path, legacy: Rules, current: Rules, pos: Pos)
    requires Material(v, p, legacy, current, pos) && ByPlainName(legacy)
    ensures Strippable(ParsePath(Render(p)), legacy)
  {
    hide ParsePath, Material, Render;
    MaterialKeys(v, p, legacy, current, pos);
    ParsePlain(Render(p));
    TextEndsAlike(p);
  }

  // ----- what survives

  /**
   * A value as the current rules see it once every plain unauthenticated field is gone: members both rules keep, and
   * below a key no text can carry, everything the current rules keep.
   */
  function View(v: Value, legacy: Rules, current: Rules, pos: Pos): (n: Norm)
    decreases v
  {
    match v
    case Arr(items) => List(ViewItems(items, legacy, current, pos))
    case Obj(fields) => Record(SortByKey(ViewFields(fields, legacy, current, pos)))
    case _ => Normalize(v, current, pos)
  }

  function ViewItems(items: seq<Value>, legacy: Rules, current: Rules, pos: Pos): (ns: seq<Norm>)
    ensures |ns| == |items|
    ensures forall i :: 0 <= i < |items| ==> ns[i] == View(items[i], legacy, current, InItem(pos))
    decreases items
  {
    if items == [] then []
    else [View(items[0], legacy, current, InItem(pos))] + ViewItems(items[1..], legacy, current, pos)
  }

  predicate Kept(k: string, legacy: Rules, current: Rules, pos: Pos)
  {
    !legacy.excluded(k, pos.depth, pos.parent) && !current.excluded(k, pos.depth, pos.parent)
  }

  function ViewFields(fields: seq<Pair<Value>>, legacy: Rules, current: Rules, pos: Pos): (ns: seq<Pair<Norm>>)
    decreases fields
  {
    if fields == [] then []
    else
      var f := fields[0];
      var rest := ViewFields(fields[1..], legacy, current, pos);
      if !Kept(f.key, legacy, current, pos) || f.val.Undefined? then rest
      else
        [Pair(f.key, if PlainKey(f.key) then View(f.val, legacy, current, InKey(pos, f.key))
                     else Normalize(f.val, current, InKey(pos, f.key)))] + rest
  }

  function ViewValue(x: Value, k: string, legacy: Rules, current: Rules, pos: Pos): (n: Option<Norm>)
  {
    if x.Undefined? then None
    else if PlainKey(k) then Some(View(x, legacy, current, InKey(pos, k)))
    else Some(Normalize(x, current, InKey(pos, k)))
  }

  function ViewMember(fields: seq<Pair<Value>>, k: string, legacy: Rules, current: Rules, pos: Pos): (n: Option<Norm>)
  {
    if !Kept(k, legacy, current, pos) then None
    else match Lookup(fields, k)
      case None => None
      case Some(x) => ViewValue(x, k, legacy, current, pos)
  }

  lemma {:induction false} ViewFieldsLookup(fields: seq<Pair<Value>>, legacy: Rules, current: Rules, pos: Pos)
    requires DistinctKeys(fields)
    ensures DistinctKeys(ViewFields(fields, legacy, current, pos))
    ensures forall k ::
              Lookup(ViewFields(fields, legacy, current, pos), k) == ViewMember(fields, k, legacy, current, pos)
    decreases fields
  {
    hide View, Normalize, PlainKey;
    if fields != [] {
      TailDistinct(fields);
      ViewFieldsLookup(fields[1..], legacy, current, pos);
      var f := fields[0];
      var rest := ViewFields(fields[1..], legacy, current, pos);
      assert Lookup(rest, f.key) == ViewMember(fields[1..], f.key, legacy, current, pos) == None;
      var all := ViewFields(fields, legacy, current, pos);
      assert all != rest ==> all[1..] == rest;
      forall k ensures Lookup(all, k) == ViewMember(fields, k, legacy, current, pos) {
        assert Lookup(rest, k) == ViewMember(fields[1..], k, legacy, current, pos);
      }
    }
  }

  ghost predicate SameViews(fs: seq<Pair<Value>>, gs: seq<Pair<Value>>, legacy: Rules, current: Rules, pos: Pos)
  {
    forall k :: ViewMember(fs, k, legacy, current, pos) == ViewMember(gs, k, legacy, current, pos)
  }

  lemma ObjectsViewEqual(fs: seq<Pair<Value>>, gs: seq<Pair<Value>>, legacy: Rules, current: Rules, pos: Pos)
    requires DistinctKeys(fs) && DistinctKeys(gs)
    ensures View(Obj(fs), legacy, current, pos) == View(Obj(gs), legacy, current, pos) <==>
              SameViews(fs, gs, legacy, current, pos)
  {
    hide SortByKey, ViewFields, ViewMember, Lookup;
    ViewFieldsLookup(fs, legacy, current, pos);
    ViewFieldsLookup(gs, legacy, current, pos);
    var vf, vg := ViewFields(fs, legacy, current, pos), ViewFields(gs, legacy, current, pos);
    SortedEqual(vf, vg);
    if SameViews(fs, gs, legacy, current, pos) {
      forall k ensures Lookup(vf, k) == Lookup(vg, k) {
        assert ViewMember(fs, k, legacy, current, pos) == ViewMember(gs, k, legacy, current, pos);
      }
    }
    if SameLookups(vf, vg) {
      forall k ensures ViewMember(fs, k, legacy, current, pos) == ViewMember(gs, k, legacy, current, pos) {
        assert Lookup(vf, k) == Lookup(vg, k);
      }
    }
  }

  // ----- deletions do not change the view

  lemma DeleteKind(v: Value, r: Path)
    requires EndsInKey(r)
    ensures DeleteAt(v, r).Undefined? <==> v.Undefined?
    ensures DeleteAt(v, r).Obj? <==> v.Obj?
  {
  }

  lemma {:induction false} DeleteKeepsView(v: Value, r: Path, legacy: Rules, current: Rules, pos: Pos)
    requires WellFormed(v) && Strippable(r, legacy) && ByPlainName(legacy)
    ensures View(DeleteAt(v, r), legacy, current, pos) == View(v, legacy, current, pos)
    decreases r
  {
    hide Lookup, View, ViewFields, ViewItems, PlainKey, Normalize;
    match r[0]
    case Key(k) =>
      if v.Obj? && Lookup(v.fields, k).Some? {
        var gs := DeleteAt(v, r).fields;
        DeleteAtWellFormed(v, r);
        forall q ensures ViewMember(gs, q, legacy, current, pos) == ViewMember(v.fields, q, legacy, current, pos) {
          if q != k { DeleteElsewhere(v.fields, r, q); } else { DeleteMemberView(v, r, k, legacy, current, pos); }
        }
        ObjectsViewEqual(gs, v.fields, legacy, current, pos);
      }
    case Index(i) =>
      if v.Arr? && i < |v.items| {
        TailStrippable(r, legacy);
        DeleteKeepsView(v.items[i], r[1..], legacy, current, InItem(pos));
        ArraysViewEqual(DeleteAt(v, r).items, v.items, legacy, current, pos);
      }
  }

  lemma TailStrippable(r: Path, legacy: Rules)
    requires Strippable(r, legacy) && |r| > 1
    ensures Strippable(r[1..], legacy)
  {
    assert forall j :: 0 <= j < |r[1..]| ==> r[1..][j] == r[j + 1];
  }

  lemma ArraysViewEqual(xs: seq<Value>, ys: seq<Value>, legacy: Rules, current: Rules, pos: Pos)
    requires |xs| == |ys|
    requires forall i :: 0 <= i < |xs| ==>
               View(xs[i], legacy, current, InItem(pos)) == View(ys[i], legacy, current, InItem(pos))
    ensures View(Arr(xs), legacy, current, pos) == View(Arr(ys), legacy, current, pos)
  {
    assert ViewItems(xs, legacy, current, pos) == ViewItems(ys, legacy, current, pos);
  }

  lemma {:induction false} DeleteMemberView(v: Value, r: Path, k: string, legacy: Rules, current: Rules, pos: Pos)
    requires WellFormed(v) && Strippable(r, legacy) && ByPlainName(legacy) && r[0] == Key(k) && v.Obj?
             && Lookup(v.fields, k).Some?
    ensures DeleteAt(v, r).Obj?
    ensures ViewMember(DeleteAt(v, r).fields, k, legacy, current, pos) == ViewMember(v.fields, k, legacy, current, pos)
    decreases r, 0
  {
    hide Lookup, View, PlainKey, Normalize;
    var x := Lookup(v.fields, k).value;
    if |r| == 1 {
      RemoveKeyLookup(v.fields, k);
      assert legacy.excluded(k, pos.depth, pos.parent);
    } else {
      SetKeyLookup(v.fields, k, DeleteAt(x, r[1..]), k);
      TailStrippable(r, legacy);
      DeleteKind(x, r[1..]);
      assert r[0].Key? && PlainKey(r[0].key);
      LookupWellFormed(v, k);
      DeleteKeepsView(x, r[1..], legacy, current, InKey(pos, k));
    }
  }

  lemma LookupWellFormed(v: Value, k: string)
    requires WellFormed(v) && v.Obj? && Lookup(v.fields, k).Some?
    ensures WellFormed(Lookup(v.fields, k).value)
  {
  }

  // ----- deletions only remove

  lemma {:induction false} DeleteOnlyRemoves(v: Value, r: Path, p: Path, legacy: Rules, current: Rules, pos: Pos)
    requires WellFormed(v) && Material(DeleteAt(v, r), p, legacy, current, pos)
    ensures Material(v, p, legacy, current, pos)
    decreases p
  {
    hide Lookup;
    if r != [] {
      match p[0]
      case Key(k) =>
        if v.Obj? {
          if r[0] == Key(k) && Lookup(v.fields, k).Some? {
            if |r| == 1 {
              RemoveKeyLookup(v.fields, k);
            } else {
              var x := Lookup(v.fields, k).value;
              SetKeyLookup(v.fields, k, DeleteAt(x, r[1..]), k);
              LookupWellFormed(v, k);
              if !legacy.excluded(k, pos.depth,
                                  pos.parent) { DeleteOnlyRemoves(x, r[1..], p[1..], legacy, current, InKey(pos, k)); }
            }
          } else {
            DeleteElsewhere(v.fields, r, k);
          }
        }
      case Index(i) =>
        if v.Arr? && i < |v.items| && r[0] == Index(i) && |r| > 1 {
          DeleteOnlyRemoves(v.items[i], r[1..], p[1..], legacy, current, InItem(pos));
        }
    }
  }

  // ----- a value with no plain field left to strip

  /** Nothing the legacy rules drop and the current ones keep is at a plain path. */
  ghost predicate Clean(v: Value, legacy: Rules, current: Rules, pos: Pos)
  {
    forall p :: Material(v, p, legacy, current, pos) ==> !PlainPath(p)
  }

  lemma {:induction false} CleanShowsView(v: Value, legacy: Rules, current: Rules, pos: Pos)
    requires WellFormed(v) && ByPlainName(legacy) && Clean(v, legacy, current, pos)
    ensures Normalize(v, current, pos) == View(v, legacy, current, pos)
    decreases v, 1
  {
    hide Lookup, ViewFields, NormFields, PlainKey, SortByKey;
    match v
    case Arr(items) =>
      forall i | 0 <= i < |items|
        ensures Normalize(items[i], current, InItem(pos)) == View(items[i], legacy, current, InItem(pos)) {
        CleanBelow(v, Index(i), items[i], InItem(pos), legacy, current, pos);
        CleanShowsView(items[i], legacy, current, InItem(pos));
      }
      assert NormItems(items, current, pos) == ViewItems(items, legacy, current, pos);
    case Obj(fields) =>
      forall k ensures ShownMember(fields, k, current, pos) == ViewMember(fields, k, legacy, current, pos) {
        CleanMember(v, k, legacy, current, pos);
      }
      ShownIsView(fields, legacy, current, pos);
    case _ =>
  }

  /** One member: clean below its key. */
  lemma {:induction false} CleanMember(v: Value, k: string, legacy: Rules, current: Rules, pos: Pos)
    requires v.Obj? && WellFormed(v) && ByPlainName(legacy)
    requires forall p :: p != [] && p[0] == Key(k) && Material(v, p, legacy, current, pos) ==> !PlainPath(p)
    ensures ShownMember(v.fields, k, current, pos) == ViewMember(v.fields, k, legacy, current, pos)
    decreases v, 0
  {
    hide Lookup, View, PlainKey, Normalize;
    if Lookup(v.fields, k).Some? && !Lookup(v.fields, k).value.Undefined?
      && !current.excluded(k, pos.depth, pos.parent) {
      var x := Lookup(v.fields, k).value;
      if legacy.excluded(k, pos.depth, pos.parent) {
        var p := [Key(k)];
        assert PlainKey(k);
        assert PlainPath(p);
        assert Material(v, p, legacy, current, pos);
        assert false;
      } else if PlainKey(k) {
        var i :| 0 <= i < |v.fields| && v.fields[i].key == k && v.fields[i].val == x;
        forall q | Material(x, q, legacy, current, InKey(pos, k)) ensures !PlainPath(q) {
          PathBelow(v, Key(k), x, InKey(pos, k), q, legacy, current, pos);
        }
        CleanShowsView(v.fields[i].val, legacy, current, InKey(pos, k));
      }
    }
  }

  /** `x` is what a plain step from `v`, one the legacy rules keep, leads to. */
  predicate IsChild(v: Value, seg: Seg, x: Value, inner: Pos, legacy: Rules, pos: Pos)
  {
    match seg
    case Key(k) => v.Obj? && Member(v, k) == x && x != Undefined && inner == InKey(pos, k)
                   && PlainKey(k) && !legacy.excluded(k, pos.depth, pos.parent)
    case Index(i) => v.Arr? && i < |v.items| && v.items[i] == x && inner == InItem(pos)
  }

  lemma PathBelow(v: Value, seg: Seg, x: Value, inner: Pos, q: Path, legacy: Rules, current: Rules, pos: Pos)
    requires Material(x, q, legacy, current, inner)
    requires IsChild(v, seg, x, inner, legacy, pos)
    ensures ([seg] + q)[0] == seg && Material(v, [seg] + q, legacy, current, pos)
    ensures PlainPath(q) ==> PlainPath([seg] + q)
  {
    hide PlainKey;
    assert ([seg] + q)[1..] == q;
  }

  lemma CleanBelow(v: Value, seg: Seg, x: Value, inner: Pos, legacy: Rules, current: Rules, pos: Pos)
    requires Clean(v, legacy, current, pos)
    requires seg.Index? && v.Arr? && seg.index < |v.items| && v.items[seg.index] == x && inner == InItem(pos)
    ensures Clean(x, legacy, current, inner)
  {
    hide Material, PlainPath;
    forall q | Material(x, q, legacy, current, inner) ensures !PlainPath(q) {
      PathBelow(v, seg, x, inner, q, legacy, current, pos);
    }
  }

  lemma ShownIsView(fields: seq<Pair<Value>>, legacy: Rules, current: Rules, pos: Pos)
    requires DistinctKeys(fields)
    requires forall k :: ShownMember(fields, k, current, pos) == ViewMember(fields, k, legacy, current, pos)
    ensures SortByKey(NormFields(fields, current, pos)) == SortByKey(ViewFields(fields, legacy, current, pos))
  {
    hide SortByKey, ShownMember, ViewMember, NormFields, ViewFields, Lookup;
    NormFieldsLookup(fields, current, pos);
    ViewFieldsLookup(fields, legacy, current, pos);
    SortedEqual(NormFields(fields, current, pos), ViewFields(fields, legacy, current, pos));
  }

  // ----- the stripping loop

  /** Every text is read as a path a deletion may be at. */
  ghost predicate AllStrippable(texts: seq<string>, legacy: Rules)
  {
    forall i :: 0 <= i < |texts| ==> Strippable(ParsePath(texts[i]), legacy)
  }

  /** What stripping by these texts does to a body: the view stays, what is read is gone, nothing appears. */
  ghost predicate StrippedTo(before: Value, after: Value, texts: seq<string>, legacy: Rules, current: Rules)
  {
    && WellFormed(after) && (after.Obj? <==> before.Obj?)
    && View(after, legacy, current, TOP) == View(before, legacy, current, TOP)
    && (forall p :: Material(after, p, legacy, current, TOP) ==> Material(before, p, legacy, current, TOP))
    && (forall p :: EndsInKey(p) && TryAt(before, p) == Undefined ==> TryAt(after, p) == Undefined)
    && (forall i :: 0 <= i < |texts| ==> texts[i] == "hashVersion" || TryAt(after, ParsePath(texts[i])) == Undefined)
  }

  lemma StripOneTo(s: Stripped, text: string, legacy: Rules, current: Rules)
    requires WellFormed(s.body) && Strippable(ParsePath(text), legacy) && ByPlainName(legacy)
    ensures StrippedTo(s.body, StripOne(s, text).body, [text], legacy, current)
  {
    hide ParsePath, Material, View, TryAt, PutKey, DeleteAt, Strippable;
    var r := ParsePath(text);
    assert EndsInKey(r) by { StrippableEnds(r, legacy); }
    if text != "hashVersion" && TryAt(s.body, r) != Undefined {
      DeleteAtWellFormed(s.body, r);
      DeleteKind(s.body, r);
      DeleteKeepsView(s.body, r, legacy, current, TOP);
      DeletedIsGone(s.body, r);
      forall p | Material(DeleteAt(s.body, r), p, legacy, current, TOP)
        ensures Material(s.body, p, legacy, current, TOP) {
        DeleteOnlyRemoves(s.body, r, p, legacy, current, TOP);
      }
      forall p | EndsInKey(p) && TryAt(s.body, p) == Undefined ensures TryAt(DeleteAt(s.body, r), p) == Undefined {
        GoneStaysGone(s.body, r, p);
      }
    }
  }

  lemma StrippableEnds(r: Path, legacy: Rules)
    requires Strippable(r, legacy)
    ensures EndsInKey(r)
  {
  }

  lemma StrippedTwice(a: Value, b: Value, c: Value, texts: seq<string>, legacy: Rules, current: Rules)
    requires texts != [] && AllStrippable(texts, legacy)
    requires StrippedTo(a, b, [texts[0]], legacy, current) && StrippedTo(b, c, texts[1..], legacy, current)
    ensures StrippedTo(a, c, texts, legacy, current)
  {
    hide ParsePath, Material, View, TryAt, Strippable;
    forall i | 0 <= i < |texts| ensures texts[i] == "hashVersion" || TryAt(c, ParsePath(texts[i])) == Undefined {
      if i > 0 { assert texts[i] == texts[1..][i - 1]; } else { assert [texts[0]][0] == texts[0]; }
      StrippableEnds(ParsePath(texts[i]), legacy);
    }
  }

  lemma {:induction false} StripAllTo(s: Stripped, texts: seq<string>, legacy: Rules, current: Rules)
    requires WellFormed(s.body) && AllStrippable(texts, legacy) && ByPlainName(legacy)
    ensures StrippedTo(s.body, StripAll(s, texts).body, texts, legacy, current)
    decreases |texts|
  {
    hide StrippedTo, Strippable, StripOne, ByPlainName;
    if texts == [] {
      NothingStrippedTo(s.body, legacy, current);
    } else {
      assert Strippable(ParsePath(texts[0]), legacy);
      StripOneTo(s, texts[0], legacy, current);
      assert AllStrippable(texts[1..], legacy);
      StrippedWellFormed(s.body, StripOne(s, texts[0]).body, [texts[0]], legacy, current);
      StripAllTo(StripOne(s, texts[0]), texts[1..], legacy, current);
      StrippedTwice(s.body, StripOne(s, texts[0]).body, StripAll(s, texts).body, texts, legacy, current);
    }
  }

  lemma NothingStrippedTo(v: Value, legacy: Rules, current: Rules)
    requires WellFormed(v)
    ensures StrippedTo(v, v, [], legacy, current)
  {
    hide Material, View, TryAt, ParsePath;
  }

  lemma StrippedWellFormed(a: Value, b: Value, texts: seq<string>, legacy: Rules, current: Rules)
    requires StrippedTo(a, b, texts, legacy, current)
    ensures WellFormed(b) && (b.Obj? <==> a.Obj?)
  {
    hide Material, View, TryAt, ParsePath;
  }

  /** The texts the stripping loop goes through. */
  function StripTexts(source: Value, version: int, pf: Platform): (r: seq<string>)
  {
    SortLongestFirst(RenderAll([], MaterialPaths(source, version, pf.nfc)))
  }

  /** They are the texts of exactly the reported paths, and all of them are strippable. */
  lemma StripTextsExact(source: Value, version: int, pf: Platform)
    requires WellFormed(source) && version < 5
    ensures AllStrippable(StripTexts(source, version, pf), RulesOf(version, pf.nfc))
    ensures forall t :: t in StripTexts(source, version, pf) <==>
              exists p :: Reported(source, p, version, pf) && Render(p) == t
  {
    hide SortLongestFirst, LegacyPaths, ParsePath, Render, RulesOf, Material, Strippable, ByPlainName;
    var legacy, current := RulesOf(version, pf.nfc), RulesOf(5, pf.nfc);
    LegacyDropsByName(version, pf.nfc);
    var paths := MaterialPaths(source, version, pf.nfc);
    var texts := StripTexts(source, version, pf);
    forall t ensures t in texts <==> exists p :: Reported(source, p, version, pf) && Render(p) == t {
      SortLongestMembers(RenderAll([], paths), t);
      if t in texts {
        var i :| 0 <= i < |paths| && RenderAll([], paths)[i] == t;
        LegacyPathsExact(source, paths[i], legacy, current, TOP);
        RenderIs(paths[i]);
        assert Reported(source, paths[i], version, pf) && Render(paths[i]) == t;
      }
      if p :| Reported(source, p, version, pf) && Render(p) == t {
        LegacyPathsExact(source, p, legacy, current, TOP);
        RenderIs(p);
        var i :| 0 <= i < |paths| && paths[i] == p;
        assert RenderAll([], paths)[i] == t;
      }
    }
    forall i | 0 <= i < |texts| ensures Strippable(ParsePath(texts[i]), legacy) {
      assert texts[i] in texts;
      var p :| Reported(source, p, version, pf) && Render(p) == texts[i];
      ReportedIsStrippable(source, p, legacy, current, TOP);
    }
  }

  lemma RenderIs(p: Path)
    ensures Render(p) == RenderFrom([], p)
  {
  }

  /** What stripping any legacy source does, whatever its keys. */
  lemma StripSourceTo(source: Value, version: int, pf: Platform)
    requires WellFormed(source) && version < 5
    ensures StrippedTo(source, StripSource(source, version, pf).body, StripTexts(source, version, pf),
                       RulesOf(version, pf.nfc), RulesOf(5, pf.nfc))
  {
    hide StrippedTo, StripTexts, RulesOf, AllStrippable;
    StripTextsExact(source, version, pf);
    LegacyDropsByName(version, pf.nfc);
    StripAllTo(Stripped(source, []), StripTexts(source, version, pf), RulesOf(version, pf.nfc), RulesOf(5, pf.nfc));
    StripSourceIs(source, version, pf);
  }

  lemma StripSourceIs(source: Value, version: int, pf: Platform)
    ensures StripSource(source, version, pf) == StripAll(Stripped(source, []), StripTexts(source, version, pf))
  {
    hide StripAll, SortLongestFirst, MaterialPaths;
  }

  /** A plain reported path other than hashVersion is gone after stripping. */
  lemma PlainIsGone(source: Value, version: int, pf: Platform, p: Path)
    requires WellFormed(source) && version < 5 && Reported(source, p, version, pf) && PlainPath(p)
             && p != [Key("hashVersion")]
    ensures TryAt(StripSource(source, version, pf).body, p) == Undefined
  {
    hide StripTexts, ParsePath, Render, RulesOf, Material, View, TryAt, StripSource, PlainPath;
    StripTextsExact(source, version, pf);
    StripSourceTo(source, version, pf);
    ParseRender(p);
    PlainHashVersion();
    var texts := StripTexts(source, version, pf);
    assert Render(p) in texts;
    var i :| 0 <= i < |texts| && texts[i] == Render(p);
  }

  /** A reported path that is not plain is never stripped: its value stays as it was. */
  lemma NotPlainStays(source: Value, version: int, pf: Platform, q: Path)
    requires WellFormed(source) && version < 5 && Reported(source, q, version, pf) && !PlainPath(q)
    ensures Present(source, q) && Present(StripSource(source, version, pf).body, q)
    ensures At(StripSource(source, version, pf).body, q) == At(source, q) != Undefined
  {
    hide StripTexts, ParsePath, Render, RulesOf, Material, StripSource, At, Present, Strippable, ByPlainName;
    var legacy, current := RulesOf(version, pf.nfc), RulesOf(5, pf.nfc);
    MaterialUnauthenticated(source, q, legacy, current, TOP);
    LegacyDropsByName(version, pf.nfc);
    StripTextsExact(source, version, pf);
    var texts := StripTexts(source, version, pf);
    forall i | 0 <= i < |texts| ensures !Comparable(q, ParsePath(texts[i])) {
      assert Strippable(ParsePath(texts[i]), legacy);
      ApartFromPlain(source, q, ParsePath(texts[i]), legacy, current, TOP);
    }
    StripAllBeside(Stripped(source, []), texts, q);
    StripSourceIs(source, version, pf);
  }

  lemma ApartFromPlain(v: Value, q: Path, r: Path, legacy: Rules, current: Rules, pos: Pos)
    requires Material(v, q, legacy, current, pos) && !PlainPath(q) && Strippable(r, legacy) && ByPlainName(legacy)
    ensures !Comparable(q, r)
  {
    hide Material;
    MaterialKeys(v, q, legacy, current, pos);
    if q <= r { PlainPrefix(q, r); }
    if r <= q { DroppedEnds(r, q, legacy); }
  }

  lemma PlainPrefix(q: Path, r: Path)
    requires q <= r && PlainPath(r)
    ensures PlainPath(q)
  {
    hide PlainKey;
    assert forall j :: 0 <= j < |q| ==> q[j] == r[j];
  }

  /** A path with no dropped key above its end goes on after no path that ends in one. */
  lemma DroppedEnds(r: Path, q: Path, legacy: Rules)
    requires r <= q && Strippable(r, legacy)
             && forall j :: 0 <= j < |q| - 1 && q[j].Key? ==> !legacy.excluded(q[j].key, 0, None)
    ensures r == q
  {
    hide PlainPath;
    var n := |r| - 1;
    assert r[n] == q[n];
  }

  lemma {:induction false} StripAllBeside(s: Stripped, texts: seq<string>, q: Path)
    requires WellFormed(s.body) && Present(s.body, q)
             && forall i :: 0 <= i < |texts| ==> !Comparable(q, ParsePath(texts[i]))
    ensures Present(StripAll(s, texts).body, q) && At(StripAll(s, texts).body, q) == At(s.body, q)
    decreases |texts|
  {
    hide ParsePath, At, Present, Comparable, DeleteAt, PutKey, TryAt;
    if texts != [] {
      var r, t := ParsePath(texts[0]), StripOne(s, texts[0]);
      if t != s {
        DeleteKeepsBeside(s.body, r, q);
        DeleteAtWellFormed(s.body, r);
      }
      assert forall i :: 0 <= i < |texts[1..]| ==> texts[1..][i] == texts[i + 1];
      StripAllBeside(t, texts[1..], q);
    }
  }

  /** Every reported path but hashVersion is gone after stripping. */
  ghost predicate AllRemoved(source: Value, version: int, pf: Platform)
  {
    forall p :: Reported(source, p, version, pf) && p != [Key("hashVersion")] ==>
      TryAt(StripSource(source, version, pf).body, p) == Undefined
  }

  /**
   * Stripping removes everything a legacy version never authenticated (but hashVersion, which is declared anew) exactly
   * when every reported path can be carried by a path text.
   */
  lemma StrippedExactlyWhenPlain(source: Value, version: int, pf: Platform)
    requires WellFormed(source) && version < 5
    ensures AllRemoved(source, version, pf) <==> PlainReport(source, version, pf)
  {
    hide Reported, TryAt, StripSource, PlainPath;
    if PlainReport(source, version, pf) {
      forall p | Reported(source, p, version, pf) && p != [Key("hashVersion")]
        ensures TryAt(StripSource(source, version, pf).body, p) == Undefined {
        PlainIsGone(source, version, pf, p);
      }
    }
    if AllRemoved(source, version, pf) {
      forall p | Reported(source, p, version, pf) ensures PlainPath(p) {
        if !PlainPath(p) {
          NotPlainStays(source, version, pf, p);
          TryAtIs(StripSource(source, version, pf).body, p);
          HashVersionPlain();
        }
      }
    }
  }

  lemma TryAtIs(v: Value, p: Path)
    requires Present(v, p)
    ensures TryAt(v, p) == At(v, p)
  {
  }

  lemma HashVersionPlain()
    ensures PlainPath([Key("hashVersion")])
  {
    PlainNames(V4_SEMANTIC_EXCLUSIONS);
    assert V4_SEMANTIC_EXCLUSIONS[4] == "hashVersion";
  }
}
