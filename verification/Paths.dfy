/** Paths into a value, and which of them the canonical form covers. */
module Paths {
  import opened Common
  import opened Json
  import opened Canonical

  datatype Seg = Key(key: string) | Index(index: nat)

  type Path = seq<Seg>

  /** A path as `isAuthenticatedPath` takes it: an array index is `null`. */
  function Erased(path: Path): (r: seq<Option<string>>)
    ensures |r| == |path|
    ensures forall i :: 0 <= i < |path| ==> r[i] == (if path[i].Key? then Some(path[i].key) else None)
  {
    if path == [] then []
    else [if path[0].Key? then Some(path[0].key) else None] + Erased(path[1..])
  }

  /** Whether no key on the path is excluded where it sits, starting below `depth` enclosing levels and `parent`. */
  predicate Authenticated(path: seq<Option<string>>, rules: Rules, depth: nat, parent: Option<string>)
  {
    path == [] || match path[0]
                  case None => Authenticated(path[1..], rules, depth + 1, None)
                  case Some(key) =>
                    !rules.excluded(key, depth, parent)
                    && Authenticated(path[1..], rules, depth + 1, Some(key))
  }

  /** The loop over a path that carries the enclosing key. */
  method IsAuthenticatedPath(path: seq<Option<string>>, rules: Rules) returns (ok: bool)
    ensures ok == Authenticated(path, rules, 0, None)
  {
    var parent: Option<string> := None;
    var depth := 0;
    while depth < |path|
      invariant 0 <= depth <= |path|
      invariant Authenticated(path, rules, 0, None) == Authenticated(path[depth..], rules, depth, parent)
    {
      assert path[depth..][1..] == path[depth + 1..];
      match path[depth] {
        case None => parent := None;
        case Some(key) =>
          if rules.excluded(key, depth, parent) { return false; }
          parent := Some(key);
      }
      depth := depth + 1;
    }
    return true;
  }

  // ----- reading and replacing at a path

  predicate Present(v: Value, path: Path)
    decreases path
  {
    path == [] || match path[0]
                  case Key(k) => v.Obj? && Lookup(v.fields, k).Some? && Present(Lookup(v.fields, k).value, path[1..])
                  case Index(i) => v.Arr? && i < |v.items| && Present(v.items[i], path[1..])
  }

  function At(v: Value, path: Path): (r: Value)
    requires Present(v, path)
    decreases path
  {
    if path == [] then v
    else match path[0]
      case Key(k) => At(Lookup(v.fields, k).value, path[1..])
      case Index(i) => At(v.items[i], path[1..])
  }

  function SetKey(fields: seq<Pair<Value>>, k: string, x: Value): (r: seq<Pair<Value>>)
    ensures |r| == |fields|
    ensures forall i :: 0 <= i < |fields| ==> r[i].key == fields[i].key
    ensures forall i :: 0 <= i < |fields| ==> r[i] == fields[i] || r[i] == Pair(k, x)
  {
    if fields == [] then []
    else if fields[0].key == k then [Pair(k, x)] + fields[1..]
    else [fields[0]] + SetKey(fields[1..], k, x)
  }

  lemma {:induction false} SetKeyLookup(fields: seq<Pair<Value>>, k: string, x: Value, q: string)
    ensures Lookup(SetKey(fields, k, x), q) == if q == k && Lookup(fields, k).Some? then Some(x) else Lookup(fields, q)
  {
    if fields != [] {
      if fields[0].key == k {
        assert ([Pair(k, x)] + fields[1..])[1..] == fields[1..];
      } else {
        SetKeyLookup(fields[1..], k, x, q);
        assert ([fields[0]] + SetKey(fields[1..], k, x))[1..] == SetKey(fields[1..], k, x);
      }
    }
  }

  /** The value with `x` in place of what is at the path. */
  function Replace(v: Value, path: Path, x: Value): (r: Value)
    requires Present(v, path)
    ensures path != [] ==> (r.Obj? <==> v.Obj?) && (r.Arr? <==> v.Arr?)
    decreases path
  {
    if path == [] then x
    else match path[0]
      case Key(k) => Obj(SetKey(v.fields, k, Replace(Lookup(v.fields, k).value, path[1..], x)))
      case Index(i) => Arr(v.items[i := Replace(v.items[i], path[1..], x)])
  }

  lemma {:induction false} ReplaceWellFormed(v: Value, path: Path, x: Value)
    requires Present(v, path) && WellFormed(v) && WellFormed(x)
    ensures WellFormed(Replace(v, path, x))
    decreases path
  {
    if path != [] {
      match path[0]
      case Key(k) => ReplaceWellFormed(Lookup(v.fields, k).value, path[1..], x);
      case Index(i) => ReplaceWellFormed(v.items[i], path[1..], x);
    }
  }

  /** Where the value at a path sits. */
  function PosAt(path: Path, pos: Pos): (r: Pos)
  {
    if path == [] then pos
    else match path[0]
      case Key(k) => PosAt(path[1..], InKey(pos, k))
      case Index(_) => PosAt(path[1..], InItem(pos))
  }

  predicate EndsInKey(path: Path)
  {
    path != [] && path[|path| - 1].Key?
  }

  /** What the version shows of a value standing at the path: an undefined member is not shown. */
  function ShownAt(x: Value, path: Path, rules: Rules, pos: Pos, member: bool): (r: Option<Norm>)
  {
    Shown(x, rules, PosAt(path, pos), if path == [] then member else EndsInKey(path))
  }

  lemma MemberReplacement(fs: seq<Pair<Value>>, k: string, x: Value, rules: Rules, pos: Pos)
    requires DistinctKeys(fs) && Lookup(fs, k).Some?
    ensures Normalize(Obj(SetKey(fs, k, x)), rules, pos) == Normalize(Obj(fs), rules, pos)
            <==> (rules.excluded(k, pos.depth, pos.parent)
                  || Shown(x, rules, InKey(pos, k), true) == Shown(Lookup(fs, k).value, rules, InKey(pos, k), true))
  {
    var gs := SetKey(fs, k, x);
    assert DistinctKeys(gs);
    ObjectsNormalEqual(gs, fs, rules, rules, pos);
    forall q ensures ShownMember(gs, q, rules, pos)
                     == if q == k && !rules.excluded(k, pos.depth, pos.parent) then Shown(x, rules, InKey(pos, k), true)
                        else ShownMember(fs, q, rules, pos) {
      SetKeyLookup(fs, k, x, q);
    }
    assert ShownMember(fs, k, rules, pos) == if rules.excluded(k, pos.depth, pos.parent) then None
                                             else Shown(Lookup(fs, k).value, rules, InKey(pos, k), true);
  }

  lemma ItemReplacement(items: seq<Value>, i: nat, x: Value, rules: Rules, pos: Pos)
    requires i < |items|
    ensures Normalize(Arr(items[i := x]), rules, pos) == Normalize(Arr(items), rules, pos)
            <==> Normalize(x, rules, InItem(pos)) == Normalize(items[i], rules, InItem(pos))
  {
    var na, nb := NormItems(items[i := x], rules, pos), NormItems(items, rules, pos);
    if Normalize(x, rules, InItem(pos)) == Normalize(items[i], rules, InItem(pos)) {
      assert forall j :: 0 <= j < |items| ==> na[j] == nb[j];
    }
    if na == nb { assert na[i] == nb[i]; }
  }

  /** The claim about one replacement, at any position. */
  ghost predicate ReplacementExact(v: Value, path: Path, x: Value, rules: Rules, pos: Pos, member: bool)
    requires Present(v, path)
  {
    Shown(Replace(v, path, x), rules, pos, member) == Shown(v, rules, pos, member)
    <==> (!Authenticated(Erased(path), rules, pos.depth, pos.parent)
          || ShownAt(x, path, rules, pos, member) == ShownAt(At(v, path), path, rules, pos, member))
  }

  lemma ErasedTail(path: Path)
    requires path != []
    ensures Erased(path)[1..] == Erased(path[1..])
    ensures path[1..] != [] ==> EndsInKey(path[1..]) == EndsInKey(path)
  {
  }

  lemma ReplacementThroughKey(v: Value, path: Path, x: Value, rules: Rules, pos: Pos, member: bool)
    requires path != [] && path[0].Key? && Present(v, path) && DistinctKeys(v.fields)
    requires ReplacementExact(Lookup(v.fields, path[0].key).value, path[1..], x, rules, InKey(pos, path[0].key), true)
    ensures ReplacementExact(v, path, x, rules, pos, member)
  {
    hide Normalize, Lookup, SetKey, Erased;
    ErasedTail(path);
    MemberReplacement(v.fields, path[0].key, Replace(Lookup(v.fields, path[0].key).value, path[1..], x), rules, pos);
  }

  lemma ReplacementThroughIndex(v: Value, path: Path, x: Value, rules: Rules, pos: Pos, member: bool)
    requires path != [] && path[0].Index? && Present(v, path)
    requires ReplacementExact(v.items[path[0].index], path[1..], x, rules, InItem(pos), false)
    ensures ReplacementExact(v, path, x, rules, pos, member)
  {
    hide Normalize, Lookup, SetKey, Erased;
    ErasedTail(path);
    var i := path[0].index;
    ItemReplacement(v.items, i, Replace(v.items[i], path[1..], x), rules, pos);
  }

  lemma {:induction false} NormalReplacement(v: Value, path: Path, x: Value, rules: Rules, pos: Pos, member: bool)
    requires Present(v, path) && WellFormed(v) && WellFormed(x)
    ensures ReplacementExact(v, path, x, rules, pos, member)
    decreases path
  {
    if path != [] {
      match path[0]
      case Key(k) =>
        NormalReplacement(Lookup(v.fields, k).value, path[1..], x, rules, InKey(pos, k), true);
        ReplacementThroughKey(v, path, x, rules, pos, member);
      case Index(i) =>
        NormalReplacement(v.items[i], path[1..], x, rules, InItem(pos), false);
        ReplacementThroughIndex(v, path, x, rules, pos, member);
    }
  }

  /**
   * Replacing the value at a present path leaves the canonical form alone exactly when the path is not authenticated or
   * the version shows the new value as it showed the old one.
   */
  lemma AuthenticatedPathExact(v: Value, path: Path, x: Value, rules: Rules)
    requires Present(v, path) && WellFormed(v) && WellFormed(x)
    ensures Serialize(Replace(v, path, x), rules, TOP) == Serialize(v, rules, TOP)
            <==> (!Authenticated(Erased(path), rules, 0, None)
                  || ShownAt(x, path, rules, TOP, false) == ShownAt(At(v, path), path, rules, TOP, false))
  {
    ReplaceWellFormed(v, path, x);
    FormsDecideNormal(Replace(v, path, x), v, rules, rules, TOP, TOP);
    NormalReplacement(v, path, x, rules, TOP, false);
  }
}
