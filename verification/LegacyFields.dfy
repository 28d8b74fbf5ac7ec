/**
 * legacyUnauthenticatedMaterialFields: the paths a legacy version never authenticated and the current one would, and
 * the path texts they are reported as.
 */
module LegacyFields {
  import opened Common
  import opened Json
  import opened Canonical
  import opened Paths
  import opened HashVersions

  // ----- path texts

  /** How a path text grows by one segment. */
  function Extend(prefix: string, seg: Seg): (t: string)
  {
    match seg
    case Key(k) => if prefix == [] then k else prefix + "." + k
    case Index(i) => prefix + "[" + NatText(i) + "]"
  }

  function RenderFrom(prefix: string, path: Path): (t: string)
    decreases path
  {
    if path == [] then prefix else RenderFrom(Extend(prefix, path[0]), path[1..])
  }

  function Render(path: Path): (t: string)
  {
    RenderFrom([], path)
  }

  predicate Separator(c: char)
  {
    c == '.' || c == '[' || c == ']'
  }

  /** A key a path text can carry: not empty, without separators. */
  predicate PlainKey(k: string)
  {
    k != [] && forall i :: 0 <= i < |k| ==> !Separator(k[i])
  }

  ghost predicate PlainPath(path: Path)
  {
    forall i :: 0 <= i < |path| ==> path[i].Key? ==> PlainKey(path[i].key)
  }

  /** Every key of the value, at every depth, can be carried by a path text. */
  ghost predicate PlainKeys(v: Value)
  {
    match v
    case Arr(items) => forall i :: 0 <= i < |items| ==> PlainKeys(items[i])
    case Obj(fields) => forall i :: 0 <= i < |fields| ==> PlainKey(fields[i].key) && PlainKeys(fields[i].val)
    case _ => true
  }

  lemma {:induction false} PlainKeysPaths(v: Value, p: Path)
    requires PlainKeys(v) && Present(v, p)
    ensures PlainPath(p)
    decreases p
  {
    hide PlainKey;
    if p != [] {
      assert p == [p[0]] + p[1..];
      match p[0]
      case Key(k) =>
        var i :| 0 <= i < |v.fields| && v.fields[i].key == k && v.fields[i].val == Lookup(v.fields, k).value;
        PlainKeysPaths(v.fields[i].val, p[1..]);
      case Index(i) => PlainKeysPaths(v.items[i], p[1..]);
    }
  }

  /** The length of the run of characters `accept` takes from the start of `s`. */
  function Run(s: string, digits: bool): (n: nat)
    ensures n <= |s|
    ensures forall i :: 0 <= i < n ==> if digits then '0' <= s[i] <= '9' else !Separator(s[i])
    ensures n < |s| ==> if digits then !('0' <= s[n] <= '9') else Separator(s[n])
  {
    if s == [] || (if digits then !('0' <= s[0] <= '9') else Separator(s[0])) then 0 else 1 + Run(s[1..], digits)
  }

  /** One match of the parser's expression: a key run, or `[digits]`, or a character that is skipped. */
  function NextSegment(s: string): (r: (seq<Seg>, nat))
    requires s != []
    ensures 0 < r.1 <= |s|
  {
    if !Separator(s[0]) then ([Key(s[..Run(s, false)])], Run(s, false))
    else
      var n := Run(s[1..], true);
      if s[0] == '[' && 0 < n && n + 1 < |s| && s[n + 1] == ']' then ([Index(NatOf(s[1..n + 1]))], n + 2) else ([], 1)
  }

  function ParsePath(s: string): (path: Path)
    decreases |s|
  {
    if s == [] then [] else NextSegment(s).0 + ParsePath(s[NextSegment(s).1..])
  }

  lemma ParseFrom(s: string, at: nat)
    requires at < |s|
    ensures ParsePath(s[at..]) == NextSegment(s[at..]).0 + ParsePath(s[at + NextSegment(s[at..]).1..])
  {
    hide NextSegment;
    assert s[at..][NextSegment(s[at..]).1..] == s[at + NextSegment(s[at..]).1..];
  }

  lemma ParseEnd()
    ensures ParsePath([]) == []
  {
  }

  /** The cursor loop of parsePath. */
  method ParsePathLoop(s: string) returns (path: Path)
    ensures path == ParsePath(s)
  {
    hide ParsePath, NextSegment;
    path := [];
    var at := 0;
    assert s[0..] == s;
    while at < |s|
      invariant 0 <= at <= |s|
      invariant ParsePath(s) == path + ParsePath(s[at..])
    {
      var (found, n) := NextSegment(s[at..]);
      ParseFrom(s, at);
      path := path + found;
      at := at + n;
    }
    assert s[|s|..] == [];
    ParseEnd();
  }

  /** What a segment adds to a text that has begun. */
  function SegText(seg: Seg): (t: string)
  {
    match seg
    case Key(k) => "." + k
    case Index(i) => "[" + NatText(i) + "]"
  }

  /** The text of the segments after the first. */
  function RenderRest(path: Path): (t: string)
  {
    if path == [] then [] else SegText(path[0]) + RenderRest(path[1..])
  }

  lemma ExtendAppends(prefix: string, seg: Seg)
    requires prefix != []
    ensures Extend(prefix, seg) == prefix + SegText(seg)
  {
    hide NatText;
  }

  lemma {:induction false} RenderFromPrefix(prefix: string, path: Path)
    requires prefix != []
    ensures RenderFrom(prefix, path) == prefix + RenderRest(path)
    decreases path
  {
    hide Extend, SegText;
    if path != [] {
      var next := Extend(prefix, path[0]);
      ExtendAppends(prefix, path[0]);
      RenderFromPrefix(next, path[1..]);
    }
  }

  lemma {:induction false} RunExact(s: string, r: string, digits: bool)
    requires forall i :: 0 <= i < |s| ==> if digits then '0' <= s[i] <= '9' else !Separator(s[i])
    requires r == [] || (if digits then !('0' <= r[0] <= '9') else Separator(r[0]))
    ensures Run(s + r, digits) == |s|
  {
    if s == [] {
      assert s + r == r;
    } else {
      assert (s + r)[0] == s[0] && (s + r)[1..] == s[1..] + r;
      RunExact(s[1..], r, digits);
    }
  }

  lemma ParseKey(k: string, r: string)
    requires PlainKey(k) && (r == [] || Separator(r[0]))
    ensures ParsePath(k + r) == [Key(k)] + ParsePath(r)
  {
    RunExact(k, r, false);
    assert (k + r)[..|k|] == k && (k + r)[|k|..] == r;
    assert (k + r)[0] == k[0];
    assert NextSegment(k + r) == ([Key(k)], |k|);
  }

  lemma ParseIndex(i: nat, r: string)
    ensures ParsePath("[" + NatText(i) + "]" + r) == [Index(i)] + ParsePath(r)
  {
    var t := NatText(i);
    var s := "[" + t + "]" + r;
    assert s[1..] == t + ("]" + r);
    RunExact(t, "]" + r, true);
    assert s[1..|t| + 1] == t && s[|t| + 2..] == r && s[|t| + 1] == ']' && s[0] == '[';
    NatRoundTrip(i);
    assert NextSegment(s) == ([Index(i)], |t| + 2);
  }

  lemma ParseDot(k: string, r: string)
    requires PlainKey(k) && (r == [] || Separator(r[0]))
    ensures ParsePath("." + k + r) == [Key(k)] + ParsePath(r)
  {
    var s := "." + k + r;
    assert s[0] == '.' && s[1..] == k + r;
    assert NextSegment(s) == ([], 1);
    ParseKey(k, r);
  }

  /** Digits between brackets. */
  ghost predicate Bracketed(s: string, d: string, r: string)
  {
    s == "[" + d + "]" + r && d != [] && forall i :: 0 <= i < |d| ==> '0' <= d[i] <= '9'
  }

  /** Digits in brackets are an index, whatever follows. */
  lemma ParseBracketed(s: string, d: string, r: string)
    requires Bracketed(s, d, r)
    ensures ParsePath(s) == [Index(NatOf(d))] + ParsePath(r)
  {
    assert s[1..] == d + ("]" + r);
    RunExact(d, "]" + r, true);
    assert s[1..|d| + 1] == d && s[|d| + 2..] == r && s[|d| + 1] == ']' && s[0] == '[';
    assert NextSegment(s) == ([Index(NatOf(d))], |d| + 2);
  }

  /**
   * What is neither a run of other characters nor an index is passed over, one separator at a time. With ParseKey and
   * ParseBracketed this says what any text is read as: the matches of the pattern, from the left.
   */
  lemma ParseSkips(s: string)
    requires s != [] && Separator(s[0]) && forall d, r :: !Bracketed(s, d, r)
    ensures ParsePath(s) == ParsePath(s[1..])
  {
    hide Run, Bracketed;
    NotIndexed(s, Run(s[1..], true));
    assert NextSegment(s) == ([], 1);
    assert [] + ParsePath(s[1..]) == ParsePath(s[1..]);
  }

  lemma NotIndexed(s: string, n: nat)
    requires s != [] && n == Run(s[1..], true) && forall d, r :: !Bracketed(s, d, r)
    ensures !(s[0] == '[' && 0 < n && n + 1 < |s| && s[n + 1] == ']')
  {
    hide Run, Bracketed;
    if s[0] == '[' && 0 < n && n + 1 < |s| && s[n + 1] == ']' {
      var d, r := s[1..n + 1], s[n + 2..];
      assert forall i :: 0 <= i < n ==> d[i] == s[1..][i];
      IsBracketed(s, d, r, n);
    }
  }

  lemma IsBracketed(s: string, d: string, r: string, n: nat)
    requires 0 < n && n + 1 < |s| && s[0] == '[' && s[n + 1] == ']' && d == s[1..n + 1] && r == s[n + 2..]
    requires forall i :: 0 <= i < n ==> '0' <= d[i] <= '9'
    ensures Bracketed(s, d, r)
  {
    assert s == "[" + d + "]" + r;
  }

  lemma RestStops(path: Path)
    ensures RenderRest(path) == [] || Separator(RenderRest(path)[0])
  {
    hide NatText;
  }

  lemma {:induction false} ParseRest(path: Path)
    requires PlainPath(path)
    ensures ParsePath(RenderRest(path)) == path
    decreases path
  {
    hide ParsePath, NextSegment, Run, NatText;
    if path == [] { ParseEnd(); }
    if path != [] {
      var r := RenderRest(path[1..]);
      ParseRest(path[1..]);
      RestStops(path[1..]);
      match path[0]
      case Key(k) =>
        assert PlainKey(path[0].key);
        ParseDot(k, r);
      case Index(i) => ParseIndex(i, r);
    }
  }

  /** parsePath inverts the path texts whose keys carry no separator. */
  lemma ParseRender(path: Path)
    requires PlainPath(path)
    ensures ParsePath(Render(path)) == path
  {
    hide ParsePath, NextSegment, Run, NatText;
    if path == [] {
      ParseEnd();
    } else {
      var first := Extend([], path[0]);
      match path[0] {
        case Key(k) =>
          assert PlainKey(path[0].key);
          RenderFromPrefix(first, path[1..]);
          ParseRest(path[1..]);
          RestStops(path[1..]);
          ParseKey(k, RenderRest(path[1..]));
        case Index(i) =>
          RenderFromPrefix(first, path[1..]);
          ParseRest(path);
          assert [] + "[" + NatText(i) + "]" == "[" + NatText(i) + "]";
      }
    }
  }

  // ----- the paths

  /** Every path of `paths` below one more segment. */
  function Under(seg: Seg, paths: seq<Path>): (r: seq<Path>)
    ensures |r| == |paths|
    ensures forall i :: 0 <= i < |paths| ==> r[i] == [seg] + paths[i]
  {
    seq(|paths|, i requires 0 <= i < |paths| => [seg] + paths[i])
  }

  /** The paths the legacy rules drop and the current ones do not, each at its topmost dropped key. */
  function LegacyPaths(v: Value, legacy: Rules, current: Rules, pos: Pos): (r: seq<Path>)
    decreases v
  {
    match v
    case Arr(items) => ItemPaths(items, 0, legacy, current, pos)
    case Obj(fields) => FieldPaths(fields, legacy, current, pos)
    case _ => []
  }

  function ItemPaths(items: seq<Value>, from: nat, legacy: Rules, current: Rules, pos: Pos): (r: seq<Path>)
    decreases items
  {
    if items == [] then []
    else Under(Index(from), LegacyPaths(items[0], legacy, current, InItem(pos)))
         + ItemPaths(items[1..], from + 1, legacy, current, pos)
  }

  function FieldPaths(fields: seq<Pair<Value>>, legacy: Rules, current: Rules, pos: Pos): (r: seq<Path>)
    decreases fields
  {
    if fields == [] then []
    else
      var f := fields[0];
      var rest := FieldPaths(fields[1..], legacy, current, pos);
      if f.val.Undefined? then rest
      else if legacy.excluded(f.key, pos.depth, pos.parent) then
        if current.excluded(f.key, pos.depth, pos.parent) then rest else [[Key(f.key)]] + rest
      else Under(Key(f.key), LegacyPaths(f.val, legacy, current, InKey(pos, f.key))) + rest
  }

  /** What the paths are, said of one path: present, the topmost key the legacy rules drop, kept by the current ones. */
  predicate Material(v: Value, path: Path, legacy: Rules, current: Rules, pos: Pos)
    decreases path
  {
    path != [] &&
    match path[0]
    case Key(k) =>
      && v.Obj? && Member(v, k) != Undefined
      && (if legacy.excluded(k, pos.depth, pos.parent) then |path| == 1 && !current.excluded(k, pos.depth, pos.parent)
          else Material(Member(v, k), path[1..], legacy, current, InKey(pos, k)))
    case Index(i) => v.Arr? && i < |v.items| && Material(v.items[i], path[1..], legacy, current, InItem(pos))
  }

  lemma UnderMember(seg: Seg, paths: seq<Path>, path: Path)
    ensures path in Under(seg, paths) <==> path != [] && path[0] == seg && path[1..] in paths
  {
    if path in Under(seg, paths) {
      var i :| 0 <= i < |paths| && path == [seg] + paths[i];
      assert path[1..] == paths[i];
    }
    if path != [] && path[0] == seg && path[1..] in paths {
      var i :| 0 <= i < |paths| && paths[i] == path[1..];
      assert Under(seg, paths)[i] == path;
    }
  }

  lemma {:induction false} LegacyPathsExact(v: Value, path: Path, legacy: Rules, current: Rules, pos: Pos)
    requires WellFormed(v)
    ensures path in LegacyPaths(v, legacy, current, pos) <==> Material(v, path, legacy, current, pos)
    decreases v
  {
    match v
    case Arr(items) => ItemPathsExact(items, 0, path, legacy, current, pos);
    case Obj(fields) => FieldPathsExact(fields, path, legacy, current, pos);
    case _ =>
  }

  lemma {:induction false} ItemPathsExact(items: seq<Value>, from: nat, path: Path, legacy: Rules, current: Rules,
                                          pos: Pos)
    requires forall i :: 0 <= i < |items| ==> WellFormed(items[i])
    ensures path in ItemPaths(items, from, legacy, current, pos)
            <==> path != [] && path[0].Index? && from <= path[0].index < from + |items|
                 && Material(items[path[0].index - from], path[1..], legacy, current, InItem(pos))
    decreases items
  {
    if items != [] {
      var below := LegacyPaths(items[0], legacy, current, InItem(pos));
      UnderMember(Index(from), below, path);
      if path != [] { LegacyPathsExact(items[0], path[1..], legacy, current, InItem(pos)); }
      ItemPathsExact(items[1..], from + 1, path, legacy, current, pos);
    }
  }

  lemma {:induction false} FieldPathsExact(fields: seq<Pair<Value>>, path: Path, legacy: Rules, current: Rules,
                                           pos: Pos)
    requires DistinctKeys(fields) && forall i :: 0 <= i < |fields| ==> WellFormed(fields[i].val)
    ensures path in FieldPaths(fields, legacy, current, pos) <==> Material(Obj(fields), path, legacy, current, pos)
    decreases fields
  {
    if fields != [] {
      TailDistinct(fields);
      var f := fields[0];
      FieldPathsExact(fields[1..], path, legacy, current, pos);
      MaterialByHead(fields, path, legacy, current, pos);
      var below := LegacyPaths(f.val, legacy, current, InKey(pos, f.key));
      UnderMember(Key(f.key), below, path);
      if path != [] && path[0] == Key(f.key) {
        LegacyPathsExact(f.val, path[1..], legacy, current, InKey(pos, f.key));
        assert Member(Obj(fields), f.key) == f.val;
        assert path == [Key(f.key)] <==> |path| == 1;
      } else {
        assert path != [Key(f.key)];
      }
    }
  }

  /** Whether a path is material in an object is decided by the member its first key names. */
  lemma MaterialByHead(fields: seq<Pair<Value>>, path: Path, legacy: Rules, current: Rules, pos: Pos)
    requires DistinctKeys(fields) && fields != []
    ensures path != [] && path[0] == Key(fields[0].key) ==>
              !Material(Obj(fields[1..]), path, legacy, current, pos)
    ensures path == [] || path[0] != Key(fields[0].key) ==>
              (Material(Obj(fields), path, legacy, current, pos) <==>
                 Material(Obj(fields[1..]), path, legacy, current, pos))
  {
    TailDistinct(fields);
  }

  // ----- what the paths promise

  /** No returned path lies below another. */
  lemma {:induction false} MaterialPrefixFree(v: Value, p: Path, q: Path, legacy: Rules, current: Rules, pos: Pos)
    requires Material(v, p, legacy, current, pos) && Material(v, q, legacy, current, pos) && p <= q
    ensures p == q
    decreases p
  {
    assert p[0] == q[0] && p[1..] <= q[1..];
    match p[0]
    case Key(k) =>
      if legacy.excluded(k, pos.depth, pos.parent) {
        assert p == [p[0]] && q == [q[0]];
      } else {
        MaterialPrefixFree(Member(v, k), p[1..], q[1..], legacy, current, InKey(pos, k));
        assert p == [p[0]] + p[1..] && q == [q[0]] + q[1..];
      }
    case Index(i) =>
      MaterialPrefixFree(v.items[i], p[1..], q[1..], legacy, current, InItem(pos));
      assert p == [p[0]] + p[1..] && q == [q[0]] + q[1..];
  }

  /** Every returned path is present, holds a value, and is outside what the legacy version authenticates. */
  lemma {:induction false} MaterialUnauthenticated(v: Value, p: Path, legacy: Rules, current: Rules, pos: Pos)
    requires Material(v, p, legacy, current, pos)
    ensures Present(v, p) && At(v, p) != Undefined && EndsInKey(p)
    ensures !Authenticated(Erased(p), legacy, pos.depth, pos.parent)
    decreases p
  {
    hide Erased, Lookup;
    ErasedTail(p);
    match p[0]
    case Key(k) =>
      if !legacy.excluded(k, pos.depth, pos.parent) {
        MaterialUnauthenticated(Member(v, k), p[1..], legacy, current, InKey(pos, k));
      } else {
        assert p == [Key(k)];
      }
    case Index(i) => MaterialUnauthenticated(v.items[i], p[1..], legacy, current, InItem(pos));
  }

  /** Every present path the legacy version drops and the current one authenticates lies at or below a returned one. */
  lemma {:induction false} MaterialCovers(v: Value, p: Path, legacy: Rules, current: Rules, pos: Pos) returns (n: nat)
    requires Present(v, p) && At(v, p) != Undefined
    requires !Authenticated(Erased(p), legacy, pos.depth, pos.parent)
    requires Authenticated(Erased(p), current, pos.depth, pos.parent)
    ensures n <= |p| && Material(v, p[..n], legacy, current, pos)
    decreases p
  {
    hide Erased, Lookup;
    ErasedTail(p);
    match p[0]
    case Key(k) =>
      if legacy.excluded(k, pos.depth, pos.parent) {
        n := 1;
        assert p[..1] == [Key(k)];
        assert p[1..] != [] ==> Member(v, k).Obj? || Member(v, k).Arr?;
      } else {
        var m := MaterialCovers(Member(v, k), p[1..], legacy, current, InKey(pos, k));
        n := m + 1;
        assert p[..n][1..] == p[1..][..m];
        assert p[..n][0] == p[0];
      }
    case Index(i) =>
      var m := MaterialCovers(v.items[i], p[1..], legacy, current, InItem(pos));
      n := m + 1;
      assert p[..n][1..] == p[1..][..m];
      assert p[..n][0] == p[0];
  }

  /** The current rules drop nothing the legacy ones keep. */
  ghost predicate DropsWithin(current: Rules, legacy: Rules)
  {
    forall key: string, depth: nat, parent: Option<string> ::
      current.excluded(key, depth, parent) ==> legacy.excluded(key, depth, parent)
  }

  lemma {:induction false} MaterialAuthenticatedNow(v: Value, p: Path, legacy: Rules, current: Rules, pos: Pos)
    requires DropsWithin(current, legacy)
    requires Material(v, p, legacy, current, pos)
    ensures Authenticated(Erased(p), current, pos.depth, pos.parent)
    decreases p
  {
    ErasedTail(p);
    match p[0]
    case Key(k) =>
      if legacy.excluded(k, pos.depth, pos.parent) {
        assert p == [Key(k)];
        assert Erased(p)[1..] == [];
      } else {
        MaterialAuthenticatedNow(Member(v, k), p[1..], legacy, current, InKey(pos, k));
      }
    case Index(i) => MaterialAuthenticatedNow(v.items[i], p[1..], legacy, current, InItem(pos));
  }

  // ----- the versions

  /** The text of every path below `prefix`. */
  function RenderAll(prefix: string, paths: seq<Path>): (ts: seq<string>)
    ensures |ts| == |paths|
    ensures forall i :: 0 <= i < |paths| ==> ts[i] == RenderFrom(prefix, paths[i])
  {
    seq(|paths|, i requires 0 <= i < |paths| => RenderFrom(prefix, paths[i]))
  }

  lemma RenderAllConcat(prefix: string, ps: seq<Path>, qs: seq<Path>)
    ensures RenderAll(prefix, ps + qs) == RenderAll(prefix, ps) + RenderAll(prefix, qs)
  {
  }

  lemma RenderAllUnder(prefix: string, seg: Seg, ps: seq<Path>)
    ensures RenderAll(prefix, Under(seg, ps)) == RenderAll(Extend(prefix, seg), ps)
  {
    forall i | 0 <= i < |ps| ensures RenderFrom(prefix, Under(seg, ps)[i]) == RenderFrom(Extend(prefix, seg), ps[i]) {
      assert ([seg] + ps[i])[1..] == ps[i];
    }
  }

  /** The texts the items from `i` on add. */
  function ItemTexts(items: seq<Value>, i: nat, prefix: string, legacy: Rules, current: Rules,
                     pos: Pos): (ts: seq<string>)
    requires i <= |items|
    decreases |items| - i
  {
    if i == |items| then []
    else RenderAll(Extend(prefix, Index(i)), LegacyPaths(items[i], legacy, current, InItem(pos)))
         + ItemTexts(items, i + 1, prefix, legacy, current, pos)
  }

  lemma {:induction false} ItemTextsRender(items: seq<Value>, i: nat, prefix: string, legacy: Rules, current: Rules,
                                           pos: Pos)
    requires i <= |items|
    ensures ItemTexts(items, i, prefix, legacy, current, pos)
            == RenderAll(prefix, ItemPaths(items[i..], i, legacy, current, pos))
    decreases |items| - i
  {
    if i < |items| {
      var below := LegacyPaths(items[i], legacy, current, InItem(pos));
      assert items[i..][1..] == items[i + 1..];
      RenderAllConcat(prefix, Under(Index(i), below), ItemPaths(items[i + 1..], i + 1, legacy, current, pos));
      RenderAllUnder(prefix, Index(i), below);
      ItemTextsRender(items, i + 1, prefix, legacy, current, pos);
    }
  }

  lemma ItemTextsAll(items: seq<Value>, prefix: string, legacy: Rules, current: Rules, pos: Pos)
    ensures ItemTexts(items, 0, prefix, legacy, current, pos)
            == RenderAll(prefix, ItemPaths(items, 0, legacy, current, pos))
  {
    ItemTextsRender(items, 0, prefix, legacy, current, pos);
    assert items[0..] == items;
  }

  /** The texts one member adds. */
  function MemberPathTexts(f: Pair<Value>, prefix: string, legacy: Rules, current: Rules, pos: Pos): (ts: seq<string>)
  {
    if f.val.Undefined? then []
    else if legacy.excluded(f.key, pos.depth, pos.parent) then
      if current.excluded(f.key, pos.depth, pos.parent) then [] else [Extend(prefix, Key(f.key))]
    else RenderAll(Extend(prefix, Key(f.key)), LegacyPaths(f.val, legacy, current, InKey(pos, f.key)))
  }

  lemma FieldTexts(fields: seq<Pair<Value>>, i: nat, prefix: string, legacy: Rules, current: Rules, pos: Pos)
    requires i < |fields|
    ensures RenderAll(prefix, FieldPaths(fields[i..], legacy, current, pos))
            == MemberPathTexts(fields[i], prefix, legacy, current, pos)
               + RenderAll(prefix, FieldPaths(fields[i + 1..], legacy, current, pos))
  {
    var f := fields[i];
    var below := LegacyPaths(f.val, legacy, current, InKey(pos, f.key));
    var rest := FieldPaths(fields[i + 1..], legacy, current, pos);
    assert fields[i..][1..] == fields[i + 1..];
    RenderAllConcat(prefix, Under(Key(f.key), below), rest);
    RenderAllUnder(prefix, Key(f.key), below);
    RenderAllConcat(prefix, [[Key(f.key)]], rest);
    assert RenderFrom(prefix, [Key(f.key)]) == Extend(prefix, Key(f.key));
    assert RenderAll(prefix, [[Key(f.key)]]) == [Extend(prefix, Key(f.key))];
  }

  lemma NoFieldTexts(prefix: string, legacy: Rules, current: Rules, pos: Pos)
    ensures RenderAll(prefix, FieldPaths([], legacy, current, pos)) == []
  {
  }

  /** The visitor: it pushes the path texts found below `v` onto `out`. */
  method Visit(v: Value, legacy: Rules, current: Rules, pos: Pos, prefix: string, out: seq<string>)
    returns (r: seq<string>)
    ensures r == out + RenderAll(prefix, LegacyPaths(v, legacy, current, pos))
    decreases v, 1
  {
    match v
    case Arr(items) =>
      r := VisitItems(items, legacy, current, pos, prefix, out);
      ItemTextsAll(items, prefix, legacy, current, pos);
    case Obj(fields) => r := VisitFields(fields, legacy, current, pos, prefix, out);
    case _ => r := out;
  }

  method VisitItems(items: seq<Value>, legacy: Rules, current: Rules, pos: Pos, prefix: string, out: seq<string>)
    returns (r: seq<string>)
    ensures r == out + ItemTexts(items, 0, prefix, legacy, current, pos)
    decreases items, 0
  {
    hide LegacyPaths, RenderAll, Extend;
    r := out;
    for i := 0 to |items|
      invariant out + ItemTexts(items, 0, prefix, legacy, current, pos)
                == r + ItemTexts(items, i, prefix, legacy, current, pos)
    {
      r := Visit(items[i], legacy, current, InItem(pos), Extend(prefix, Index(i)), r);
    }
  }

  method VisitFields(fields: seq<Pair<Value>>, legacy: Rules, current: Rules, pos: Pos, prefix: string,
                     out: seq<string>)
    returns (r: seq<string>)
    ensures r == out + RenderAll(prefix, FieldPaths(fields, legacy, current, pos))
    decreases fields, 0
  {
    hide LegacyPaths, RenderAll, Extend, FieldPaths;
    r := out;
    ghost var all := out + RenderAll(prefix, FieldPaths(fields, legacy, current, pos));
    for i := 0 to |fields|
      invariant all == r + RenderAll(prefix, FieldPaths(fields[i..], legacy, current, pos))
    {
      var f := fields[i];
      FieldTexts(fields, i, prefix, legacy, current, pos);
      if !f.val.Undefined? {
        if legacy.excluded(f.key, pos.depth, pos.parent) {
          if !current.excluded(f.key, pos.depth, pos.parent) {
            r := r + [Extend(prefix, Key(f.key))];
          }
        } else {
          r := Visit(f.val, legacy, current, InKey(pos, f.key), Extend(prefix, Key(f.key)), r);
        }
      }
    }
    assert fields[|fields|..] == [];
    NoFieldTexts(prefix, legacy, current, pos);
  }

  /** The paths reported for an artifact of a legacy version; none for the current one. */
  function MaterialPaths(v: Value, version: int, nfc: string -> string): (r: seq<Path>)
  {
    if version >= CURRENT_HASH_VERSION then []
    else LegacyPaths(v, RulesOf(version, nfc), RulesOf(CURRENT_HASH_VERSION, nfc), TOP)
  }

  method LegacyUnauthenticatedMaterialFields(v: Value, version: int, nfc: string -> string) returns (out: seq<string>)
    ensures out == RenderAll([], MaterialPaths(v, version, nfc))
  {
    if version >= CURRENT_HASH_VERSION { return []; }
    out := Visit(v, RulesOf(version, nfc), RulesOf(CURRENT_HASH_VERSION, nfc), TOP, [], []);
  }

  /**
   * What the report of a legacy version promises: paths that exist and that the version never authenticated, none below
   * another, covering everything present that the version dropped and version 5 authenticates.
   */
  lemma MaterialPathsPromise(v: Value, version: int, nfc: string -> string)
    requires WellFormed(v) && version < 5
    ensures forall p :: p in MaterialPaths(v, version, nfc) ==>
              Present(v, p) && At(v, p) != Undefined && !Authenticated(Erased(p), RulesOf(version, nfc), 0, None)
    ensures forall p, q :: p in MaterialPaths(v, version, nfc) && q in MaterialPaths(v, version, nfc) && p <= q ==>
              p == q
    ensures forall p ::
              Present(v, p) && At(v, p) != Undefined && !Authenticated(Erased(p), RulesOf(version, nfc), 0, None)
              && Authenticated(Erased(p), RulesOf(5, nfc), 0, None) ==>
                exists n :: 0 <= n <= |p| && p[..n] in MaterialPaths(v, version, nfc)
  {
    hide Authenticated, Material, LegacyPaths, Excluded, RulesOf, Erased, At, Present;
    var legacy, current := RulesOf(version, nfc), RulesOf(5, nfc);
    forall p | p in MaterialPaths(v, version, nfc)
      ensures Present(v, p) && At(v, p) != Undefined && !Authenticated(Erased(p), legacy, 0, None)
    {
      LegacyPathsExact(v, p, legacy, current, TOP);
      MaterialUnauthenticated(v, p, legacy, current, TOP);
    }
    forall p, q | p in MaterialPaths(v, version, nfc) && q in MaterialPaths(v, version, nfc) && p <= q ensures p == q {
      LegacyPathsExact(v, p, legacy, current, TOP);
      LegacyPathsExact(v, q, legacy, current, TOP);
      MaterialPrefixFree(v, p, q, legacy, current, TOP);
    }
    forall p | Present(v, p) && At(v, p) != Undefined && !Authenticated(Erased(p), legacy, 0, None)
               && Authenticated(Erased(p), current, 0, None)
      ensures exists n :: 0 <= n <= |p| && p[..n] in MaterialPaths(v, version, nfc)
    {
      var n := MaterialCovers(v, p, legacy, current, TOP);
      LegacyPathsExact(v, p[..n], legacy, current, TOP);
    }
  }

  /** Every path reported for a version-4 artifact is one version 5 authenticates. */
  lemma V4PathsAuthenticatedNow(v: Value, p: Path, nfc: string -> string)
    requires WellFormed(v) && p in MaterialPaths(v, 4, nfc)
    ensures Authenticated(Erased(p), RulesOf(5, nfc), 0, None)
  {
    var legacy, current := RulesOf(4, nfc), RulesOf(5, nfc);
    LegacyPathsExact(v, p, legacy, current, TOP);
    V5WithinV4(nfc);
    MaterialAuthenticatedNow(v, p, legacy, current, TOP);
  }

  lemma V5WithinV4(nfc: string -> string)
    ensures DropsWithin(RulesOf(5, nfc), RulesOf(4, nfc))
  {
    forall key: string, depth: nat, parent: Option<string> | RulesOf(5, nfc).excluded(key, depth, parent)
      ensures RulesOf(4, nfc).excluded(key, depth, parent)
    {
      V5DropsWithinV4(key, depth, parent);
    }
  }

  lemma {:induction false} DeepPathsAuthenticatedNow(v: Value, p: Path, version: int, nfc: string -> string, pos: Pos)
    requires version < 5 && 0 < pos.depth
    requires Material(v, p, RulesOf(version, nfc), RulesOf(5, nfc), pos)
    ensures Authenticated(Erased(p), RulesOf(5, nfc), pos.depth, pos.parent)
    decreases p
  {
    hide V4Exclusion, SemanticExclusion, V5Unauthenticated, V5DerivedLabel;
    ErasedTail(p);
    match p[0]
    case Key(k) =>
      if Excluded(k, version, pos.depth, pos.parent) {
        assert p == [Key(k)];
        assert Erased(p)[1..] == [];
      } else {
        ArtifactIdDropped(version, pos.depth, pos.parent);
        DeepPathsAuthenticatedNow(Member(v, k), p[1..], version, nfc, InKey(pos, k));
      }
    case Index(i) => DeepPathsAuthenticatedNow(v.items[i], p[1..], version, nfc, InItem(pos));
  }

  lemma ArtifactIdDropped(version: int, depth: nat, parent: Option<string>)
    requires version < 5
    ensures Excluded("artifactId", version, depth, parent)
  {
    assert V4_SEMANTIC_EXCLUSIONS[1] == "artifactId" && SEMANTIC_EXCLUSIONS[1] == "artifactId";
  }

  /**
   * For any legacy version, a reported path is one version 5 authenticates exactly when its first key is not on version
   * 5's own top-level list. Versions 1 to 3 do report paths below such keys (LegacyReportBelowDropped).
   */
  lemma ReportedPathAuthenticatedNow(v: Value, p: Path, version: int, nfc: string -> string)
    requires WellFormed(v) && version < 5 && p in MaterialPaths(v, version, nfc)
    ensures p != []
    ensures Authenticated(Erased(p), RulesOf(5, nfc), 0, None) <==> p[0].Index? || !Excluded(p[0].key, 5, 0, None)
  {
    hide V4Exclusion, SemanticExclusion, V5Unauthenticated, V5DerivedLabel, LegacyPaths;
    var legacy, current := RulesOf(version, nfc), RulesOf(5, nfc);
    LegacyPathsExact(v, p, legacy, current, TOP);
    ErasedTail(p);
    match p[0]
    case Key(k) =>
      if Excluded(k, version, 0, None) {
        assert p == [Key(k)];
        assert Erased(p)[1..] == [];
      } else {
        DeepPathsAuthenticatedNow(Member(v, k), p[1..], version, nfc, InKey(TOP, k));
      }
    case Index(i) => DeepPathsAuthenticatedNow(v.items[i], p[1..], version, nfc, InItem(TOP));
  }

  lemma MaterialBelow(outer: string, inner: string, x: Value, legacy: Rules, current: Rules)
    requires x != Undefined && !legacy.excluded(outer, 0, None)
    requires legacy.excluded(inner, 1, Some(outer)) && !current.excluded(inner, 1, Some(outer))
    ensures var v := Obj([Pair(outer, Obj([Pair(inner, x)]))]);
            Material(v, [Key(outer), Key(inner)], legacy, current, TOP)
  {
    var w := Obj([Pair(inner, x)]);
    var v := Obj([Pair(outer, w)]);
    var p := [Key(outer), Key(inner)];
    assert Member(w, inner) == x && Member(v, outer) == w;
    assert p[1..] == [Key(inner)];
    assert Material(w, [Key(inner)], legacy, current, InKey(TOP, outer));
  }

  lemma DebugStatusRules()
    ensures !Excluded("debug", 3, 0, None) && Excluded("status", 3, 1, Some("debug"))
    ensures Excluded("debug", 5, 0, None) && !Excluded("status", 5, 1, Some("debug"))
  {
    assert SemanticExclusion("status") && !SemanticExclusion("debug") && V5Unauthenticated("debug");
  }

  /** A version-3 artifact `{debug: {status: ".."}}`: `debug.status` is reported, and version 5 drops it as well. */
  lemma LegacyReportBelowDropped(nfc: string -> string)
    ensures var v := Obj([Pair("debug", Obj([Pair("status", Str("x"))]))]);
            && WellFormed(v)
            && [Key("debug"), Key("status")] in MaterialPaths(v, 3, nfc)
            && !Authenticated(Erased([Key("debug"), Key("status")]), RulesOf(5, nfc), 0, None)
  {
    hide V4Exclusion, SemanticExclusion, V5Unauthenticated, V5DerivedLabel, LegacyPaths, Material;
    var v := Obj([Pair("debug", Obj([Pair("status", Str("x"))]))]);
    var p := [Key("debug"), Key("status")];
    DebugStatusRules();
    MaterialBelow("debug", "status", Str("x"), RulesOf(3, nfc), RulesOf(5, nfc));
    LegacyPathsExact(v, p, RulesOf(3, nfc), RulesOf(5, nfc), TOP);
    assert Erased(p)[0] == Some("debug");
  }
}
