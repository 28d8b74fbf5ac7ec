/**
 * The diff as it is recorded and by default: its paths printed as texts, which on plain keys can be read back, and the
 * default exclusions, under which no difference means one canonical form in the first three hash versions.
 */
module DiffTexts {
  import opened Common
  import opened Json
  import Canonical
  import opened Paths
  import opened HashVersions
  import LegacyFields
  import opened Diff

  // ----- texts of paths

  /** A path read back from its text: `$` is the root, and stands before a path that begins with an index. */
  function ReadText(t: string): (p: Path)
  {
    if t == "$" then []
    else
      var q := LegacyFields.ParsePath(t);
      if q != [] && q[0] == Key("$") then q[1..] else q
  }

  lemma {:induction false} RenderSnoc(prefix: string, p: Path, seg: Seg)
    ensures LegacyFields.RenderFrom(prefix, p + [seg]) == LegacyFields.Extend(LegacyFields.RenderFrom(prefix, p), seg)
    decreases p
  {
    if p == [] {
      assert p + [seg] == [seg] && [seg][1..] == [];
    } else {
      assert (p + [seg])[1..] == p[1..] + [seg];
      RenderSnoc(LegacyFields.Extend(prefix, p[0]), p[1..], seg);
    }
  }

  /** A path whose text is that of a rendered path: plain, and not beginning with the key `$`. */
  ghost predicate Readable(p: Path)
  {
    LegacyFields.PlainPath(p) && (p == [] || p[0] != Key("$"))
  }

  /** The path whose rendering is the text. */
  function Rooted(p: Path): (q: Path)
  {
    if p != [] && p[0].Key? then p else [Key("$")] + p
  }

  lemma {:induction false} TextIsRendered(p: Path)
    requires Readable(p)
    ensures Text(p) == LegacyFields.Render(Rooted(p)) && Text(p) != []
    decreases |p|
  {
    hide NatText;
    if p == [] {
      assert Rooted(p) == [] + [Key("$")];
      RenderSnoc([], [], Key("$"));
    } else {
      var n := |p| - 1;
      assert p == p[..n] + [p[n]];
      assert p[n].Key? ==> LegacyFields.PlainKey(p[n].key);
      if n == 0 && p[0].Key? {
        assert p == [] + [p[0]] && p[..0] == [];
        RenderSnoc([], [], p[0]);
      } else {
        assert Readable(p[..n]);
        TextIsRendered(p[..n]);
        assert Rooted(p) == Rooted(p[..n]) + [p[n]] by { assert n > 0 ==> p[..n][0] == p[0]; }
        RenderSnoc([], Rooted(p[..n]), p[n]);
        OnlyDollarsReadDollar(p[..n]);
        if n > 0 { NotDollars(p[..n]); }
        RootAndKey(p, n);
      }
    }
  }

  lemma NotDollars(p: Path)
    requires Readable(p) && p != []
    ensures p != Dollars(|p|)
  {
    assert Dollars(|p|)[0] == Key("$");
  }

  /** Only below the root does a key stand alone, and there it is not preceded by an index. */
  lemma RootAndKey(p: Path, n: nat)
    requires n + 1 == |p| && Readable(p) && !(n == 0 && p[0].Key?)
    ensures n == 0 ==> p[n].Index?
  {
  }

  /** On plain keys a path can be read back from its text. */
  lemma ReadBack(p: Path)
    requires Readable(p)
    ensures ReadText(Text(p)) == p
  {
    hide Text, LegacyFields.ParsePath, LegacyFields.RenderFrom;
    TextIsRendered(p);
    DollarIsPlain();
    assert LegacyFields.PlainPath(Rooted(p));
    LegacyFields.ParseRender(Rooted(p));
    OnlyDollarsReadDollar(p);
    if p != [] { NotDollars(p); }
  }

  lemma DollarIsPlain()
    ensures LegacyFields.PlainKey("$")
  {
  }

  /** So two such paths with one text are one path. */
  lemma TextInjective(p: Path, q: Path)
    requires Readable(p) && Readable(q) && Text(p) == Text(q)
    ensures p == q
  {
    hide Text, ReadText;
    ReadBack(p);
    ReadBack(q);
  }

  // ----- the paths of entries are present

  ghost predicate PresentIn(l: Value, r: Value, es: seq<Entry>)
  {
    forall i :: 0 <= i < |es| ==> Present(l, es[i].path) || Present(r, es[i].path)
  }

  lemma {:induction false} EntriesPresent(l: Value, r: Value, m: Mode, at: Path, inSecret: bool)
    requires WellFormed(l) && WellFormed(r)
    ensures PresentIn(l, r, Compare(l, r, m, at, inSecret))
    decreases l, 2
  {
    hide CompareItems, CompareFields, AddedFields, Record, Lookup;
    if l.Arr? && r.Arr? {
      ItemsPresent(l.items, r.items, 0, m, at, inSecret);
      var es := CompareItems(l.items, r.items, 0, m, at, inSecret);
      forall i | 0 <= i < |es| ensures Present(l, es[i].path) || Present(r, es[i].path) {
        assert ItemPresent(l.items, r.items, 0, es[i].path);
      }
    } else if l.Obj? && r.Obj? {
      FieldsPresent(l, l.fields, r, m, at, inSecret);
      AddedPresent(l, r, r.fields, m, at, inSecret);
    }
  }

  /** The path begins with an index, from `from` on, of one of the arrays, and goes on below it. */
  predicate ItemPresent(ls: seq<Value>, rs: seq<Value>, from: nat, p: Path)
  {
    && p != [] && p[0].Index? && p[0].index >= from
    && var j := p[0].index - from;
    (j < |ls| && Present(ls[j], p[1..])) || (j < |rs| && Present(rs[j], p[1..]))
  }

  lemma {:induction false} ItemsPresent(ls: seq<Value>, rs: seq<Value>, i: nat, m: Mode, at: Path, inSecret: bool)
    requires (forall k :: 0 <= k < |ls| ==> WellFormed(ls[k])) && (forall k :: 0 <= k < |rs| ==> WellFormed(rs[k]))
    ensures forall e :: e in CompareItems(ls, rs, i, m, at, inSecret) ==> ItemPresent(ls, rs, i, e.path)
    decreases ls, |rs|
  {
    hide Compare, Record, WellFormed;
    if ls == [] && rs == [] {
    } else {
      var lt, rt := if ls == [] then ls else ls[1..], if rs == [] then rs else rs[1..];
      ItemsPresent(lt, rt, i + 1, m, at, inSecret);
      var rest := CompareItems(lt, rt, i + 1, m, at, inSecret);
      forall e | e in rest ensures ItemPresent(ls, rs, i, e.path) {
        assert ItemPresent(lt, rt, i + 1, e.path);
      }
      if ls != [] && rs != [] {
        EntriesPresent(ls[0], rs[0], m, at + [Index(i)], inSecret);
        var here := Compare(ls[0], rs[0], m, at + [Index(i)], inSecret);
        forall e | e in Under(Index(i), here) ensures ItemPresent(ls, rs, i, e.path) {
          var k :| 0 <= k < |here| && e == here[k].(path := [Index(i)] + here[k].path);
          assert e.path[1..] == here[k].path;
        }
      }
    }
  }

  lemma {:induction false} FieldsPresent(l: Value, ls: seq<Pair<Value>>, r: Value, m: Mode, at: Path, inSecret: bool)
    requires l.Obj? && r.Obj? && WellFormed(r)
             && forall k :: 0 <= k < |ls| ==> WellFormed(ls[k].val) && Lookup(l.fields, ls[k].key) == Some(ls[k].val)
    ensures PresentIn(l, r, CompareFields(ls, r.fields, m, at, inSecret))
    decreases ls, 0
  {
    hide Compare, Record, WellFormed, Lookup;
    if ls != [] {
      FieldsPresent(l, ls[1..], r, m, at, inSecret);
      FieldPresent(l, ls[0], r, m, at, inSecret);
    }
  }

  lemma {:induction false} FieldPresent(l: Value, f: Pair<Value>, r: Value, m: Mode, at: Path, inSecret: bool)
    requires l.Obj? && r.Obj? && WellFormed(r) && WellFormed(f.val) && Lookup(l.fields, f.key) == Some(f.val)
    ensures PresentIn(l, r, CompareField(f, r.fields, m, at, inSecret))
    decreases f.val, 3
  {
    hide Compare, Record, Lookup;
    var es := CompareField(f, r.fields, m, at, inSecret);
    if !m.drops(f.key, at) {
      if Lookup(r.fields, f.key).None? {
        KeyPresent(l, f.key);
      } else {
        var x := Lookup(r.fields, f.key).value;
        var secret := inSecret || m.isSecret(f.key);
        EntriesPresent(f.val, x, m, at + [Key(f.key)], secret);
        var here := Compare(f.val, x, m, at + [Key(f.key)], secret);
        forall i | 0 <= i < |es| ensures Present(l, es[i].path) || Present(r, es[i].path) {
          assert es[i].path[1..] == here[i].path;
        }
      }
    }
  }

  lemma {:induction false} AddedPresent(l: Value, r: Value, rs: seq<Pair<Value>>, m: Mode, at: Path, inSecret: bool)
    requires l.Obj? && r.Obj? && forall k :: 0 <= k < |rs| ==> Lookup(r.fields, rs[k].key) == Some(rs[k].val)
    ensures PresentIn(l, r, AddedFields(l.fields, rs, m, at, inSecret))
    decreases rs
  {
    hide Record, Lookup;
    if rs != [] {
      AddedPresent(l, r, rs[1..], m, at, inSecret);
      KeyPresent(r, rs[0].key);
    }
  }

  lemma KeyPresent(v: Value, k: string)
    requires v.Obj? && Lookup(v.fields, k).Some?
    ensures Present(v, [Key(k)])
  {
    assert [Key(k)][1..] == [];
  }

  // ----- entries as recorded

  /** An entry with the text of its path, as it is recorded. */
  datatype Recorded = Recorded(text: string, kind: Kind, left: Option<Value>, right: Option<Value>, secret: bool)

  function Written(e: Entry): (r: Recorded)
  {
    Recorded(Text(e.path), e.kind, e.left, e.right, e.secret)
  }

  function Read(r: Recorded): (e: Entry)
  {
    Entry(ReadText(r.text), r.kind, r.left, r.right, r.secret)
  }

  function WrittenAll(es: seq<Entry>): (rs: seq<Recorded>)
    ensures |rs| == |es| && forall i :: 0 <= i < |es| ==> rs[i] == Written(es[i])
  {
    seq(|es|, i requires 0 <= i < |es| => Written(es[i]))
  }

  function ReadAll(rs: seq<Recorded>): (es: seq<Entry>)
    ensures |es| == |rs| && forall i :: 0 <= i < |rs| ==> es[i] == Read(rs[i])
  {
    seq(|rs|, i requires 0 <= i < |rs| => Read(rs[i]))
  }

  /** Plain keys at every depth, and none at the top named `$`. */
  ghost predicate Plain(v: Value)
  {
    LegacyFields.PlainKeys(v) && (v.Obj? ==> Lookup(v.fields, "$").None?)
  }

  lemma PresentIsReadable(v: Value, p: Path)
    requires Plain(v) && Present(v, p)
    ensures Readable(p)
  {
    hide LegacyFields.PlainKeys, LegacyFields.PlainPath;
    LegacyFields.PlainKeysPaths(v, p);
  }

  /**
   * On values with plain keys nothing is lost in the texts: what is recorded of a diff, read back, is the diff; so,
   * when nothing in it is secret, what is recorded turns the left into the right.
   */
  lemma RecordedDiffPatches(l: Value, r: Value, m: Mode)
    requires WellFormed(l) && WellFormed(r) && Plain(l) && Plain(r)
    ensures var es := Compare(l, r, m, [], false);
            && ReadAll(WrittenAll(es)) == es
            && (NoSecret(es) ==>
                  ApplyAll(Kept(l, m.drops, []), ReadAll(WrittenAll(es)), m.drops, []) == Kept(r, m.drops, []))
  {
    hide Compare, Kept, ApplyAll, Text, ReadText, Plain, Readable, NoSecret;
    var es := Compare(l, r, m, [], false);
    EntriesPresent(l, r, m, [], false);
    forall i | 0 <= i < |es| ensures Read(Written(es[i])) == es[i] {
      if Present(l, es[i].path) { PresentIsReadable(l, es[i].path); } else { PresentIsReadable(r, es[i].path); }
      ReadBack(es[i].path);
    }
    assert ReadAll(WrittenAll(es)) == es;
    if NoSecret(es) { DiffPatches(l, r, m, [], false); }
  }

  // ----- the default exclusions

  /** Values that are equal but for keys dropped by name have one normal form under rules that drop those names. */
  lemma {:induction false} KeptDecidesNormal(l: Value, r: Value, drops: string -> bool, rules: Canonical.Rules,
                                             pos: Canonical.Pos, at: Path)
    requires WellFormed(l) && WellFormed(r)
             && forall k: string, d: nat, p: Option<string> :: rules.excluded(k, d, p) == drops(k)
    requires Kept(l, Frozen(drops), at) == Kept(r, Frozen(drops), at)
    ensures Canonical.Normalize(l, rules, pos) == Canonical.Normalize(r, rules, pos)
    decreases l
  {
    hide KeptFields, KeptItems, Canonical.NormFields, SortByKey, Lookup;
    if l.Arr? && r.Arr? {
      forall i | 0 <= i < |l.items|
        ensures i < |r.items|
                && Canonical.Normalize(l.items[i], rules, Canonical.InItem(pos))
                     == Canonical.Normalize(r.items[i], rules, Canonical.InItem(pos))
      {
        KeptItemsAt(l.items, 0, Frozen(drops), at, i);
        KeptItemsAt(r.items, 0, Frozen(drops), at, i);
        KeptDecidesNormal(l.items[i], r.items[i], drops, rules, Canonical.InItem(pos), at + [Index(i)]);
      }
      assert |KeptItems(l.items, 0, Frozen(drops), at)| == |KeptItems(r.items, 0, Frozen(drops), at)|;
      assert Canonical.NormItems(l.items, rules, pos) == Canonical.NormItems(r.items, rules, pos);
    } else if l.Obj? && r.Obj? {
      forall k ensures Canonical.ShownMember(l.fields, k, rules, pos)
        == Canonical.ShownMember(r.fields, k, rules, pos) {
        KeptFieldsLookup(l.fields, Frozen(drops), at, k);
        KeptFieldsLookup(r.fields, Frozen(drops), at, k);
        if Lookup(l.fields, k).Some? && !drops(k) {
          var i :| 0 <= i < |l.fields| && l.fields[i].key == k && l.fields[i].val == Lookup(l.fields, k).value;
          var j :| 0 <= j < |r.fields| && r.fields[j].key == k && r.fields[j].val == Lookup(r.fields, k).value;
          KeptDecidesNormal(l.fields[i].val, r.fields[j].val, drops, rules, Canonical.InKey(pos, k), at + [Key(k)]);
          KeptUndefined(l.fields[i].val, r.fields[j].val, Frozen(drops), at + [Key(k)]);
        }
      }
      Canonical.ObjectsNormalEqual(l.fields, r.fields, rules, rules, pos);
    }
  }

  lemma KeptUndefined(l: Value, r: Value, d: Drops, at: Path)
    requires Kept(l, d, at) == Kept(r, d, at)
    ensures l.Undefined? <==> r.Undefined?
  {
  }

  lemma {:induction false} KeptItemsAt(items: seq<Value>, from: nat, d: Drops, at: Path, i: nat)
    ensures i < |items| ==> KeptItems(items, from, d, at)[i] == Kept(items[i], d, at + [Index(from + i)])
    ensures |KeptItems(items, from, d, at)| == |items|
    decreases items
  {
    hide Kept;
    if items != [] && i > 0 { KeptItemsAt(items[1..], from + 1, d, at, i - 1); }
  }

  /** Without options the diff leaves out the names the first three versions leave out, at any depth. */
  function DefaultMode(isSecret: string -> bool): (m: Mode)
  {
    Mode(Frozen(key => SemanticExclusion(key)), isSecret)
  }

  /** So artifacts with no difference have one canonical form under each of those versions. */
  lemma DefaultDiffDecidesForms(l: Value, r: Value, isSecret: string -> bool, version: int, nfc: string -> string)
    requires WellFormed(l) && WellFormed(r) && 1 <= version <= 3
    requires Compare(l, r, DefaultMode(isSecret), [], false) == []
    ensures CanonicalForm(l, version, nfc) == CanonicalForm(r, version, nfc)
  {
    hide Compare, Kept, SemanticExclusion, NormalText, Canonical.Normalize, Canonical.Serialize;
    var m := DefaultMode(isSecret);
    IdenticalExactly(l, r, m, [], false);
    var rules := RulesOf(version, nfc);
    KeptDecidesNormal(l, r, key => SemanticExclusion(key), rules, Canonical.TOP, []);
    Canonical.FormsDecideNormal(l, r, rules, rules, Canonical.TOP, Canonical.TOP);
    KeptUndefined(l, r, m.drops, []);
  }
}
