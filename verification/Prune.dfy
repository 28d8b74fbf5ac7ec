/** Deleting at paths, one after the other, and what it leaves of a value's normal form. */
module Prune {
  import opened Common
  import opened Json
  import opened Canonical
  import opened Paths
  import opened LegacyFields

  function RemoveKey(fields: seq<Pair<Value>>, k: string): (r: seq<Pair<Value>>)
  {
    if fields == [] then []
    else if fields[0].key == k then fields[1..]
    else [fields[0]] + RemoveKey(fields[1..], k)
  }

  lemma {:induction false} RemoveKeyLookup(fields: seq<Pair<Value>>, k: string)
    requires DistinctKeys(fields)
    ensures DistinctKeys(RemoveKey(fields, k))
    ensures forall p :: p in RemoveKey(fields, k) ==> p in fields
    ensures forall q :: Lookup(RemoveKey(fields, k), q) == if q == k then None else Lookup(fields, q)
  {
    if fields != [] {
      TailDistinct(fields);
      if fields[0].key != k {
        RemoveKeyLookup(fields[1..], k);
        var rest := RemoveKey(fields[1..], k);
        assert ([fields[0]] + rest)[1..] == rest;
        assert Lookup(rest, fields[0].key) == None;
      } else {
        assert Lookup(fields[1..], k) == None;
      }
    }
  }

  /** deleteAtPath: nothing happens where the parent is missing. */
  function DeleteAt(v: Value, path: Path): (r: Value)
    decreases path
  {
    if path == [] then v
    else match path[0]
      case Key(k) =>
        if !v.Obj? || Lookup(v.fields, k).None? then v
        else if |path| == 1 then Obj(RemoveKey(v.fields, k))
        else Obj(SetKey(v.fields, k, DeleteAt(Lookup(v.fields, k).value, path[1..])))
      case Index(i) =>
        if !v.Arr? || i >= |v.items| then v
        else if |path| == 1 then Arr(v.items[i := Undefined])
        else Arr(v.items[i := DeleteAt(v.items[i], path[1..])])
  }

  lemma {:induction false} DeleteAtWellFormed(v: Value, path: Path)
    requires WellFormed(v)
    ensures WellFormed(DeleteAt(v, path))
    decreases path
  {
    if path != [] {
      match path[0]
      case Key(k) =>
        if v.Obj? && Lookup(v.fields, k).Some? {
          RemoveKeyLookup(v.fields, k);
          DeleteAtWellFormed(Lookup(v.fields, k).value, path[1..]);
          if |path| == 1 {
            var gs := RemoveKey(v.fields, k);
            forall i | 0 <= i < |gs| ensures WellFormed(gs[i].val) { assert gs[i] in v.fields; }
          }
        }
      case Index(i) =>
        if v.Arr? && i < |v.items| { DeleteAtWellFormed(v.items[i], path[1..]); }
    }
  }

  /** Deleting at each path in turn. */
  function Pruned(v: Value, ps: seq<Path>): (r: Value)
  {
    if ps == [] then v else DeleteAt(Pruned(v, ps[..|ps| - 1]), ps[|ps| - 1])
  }

  lemma PrunedNext(v: Value, ps: seq<Path>, p: Path)
    ensures Pruned(v, ps + [p]) == DeleteAt(Pruned(v, ps), p)
  {
    assert (ps + [p])[..|ps|] == ps;
  }

  /** The paths of `ps` that go on below one segment, in order. */
  function Below(ps: seq<Path>, seg: Seg): (r: seq<Path>)
  {
    if ps == [] then []
    else
      var last := ps[|ps| - 1];
      Below(ps[..|ps| - 1], seg) + (if |last| > 1 && last[0] == seg then [last[1..]] else [])
  }

  lemma {:induction false} BelowMember(ps: seq<Path>, seg: Seg, q: Path)
    ensures q in Below(ps, seg) <==> q != [] && [seg] + q in ps
  {
    if ps != [] {
      var init, last := ps[..|ps| - 1], ps[|ps| - 1];
      assert ps == init + [last];
      BelowMember(init, seg, q);
      if |last| > 1 && last[0] == seg {
        assert last == [seg] + last[1..];
        assert [seg] + q == last <==> q == last[1..] by {
          if [seg] + q == last { assert q == ([seg] + q)[1..]; }
        }
      } else if q != [] {
        assert ([seg] + q)[0] == seg && |[seg] + q| > 1;
      }
    }
  }

  lemma {:induction false} PrunedWellFormed(v: Value, ps: seq<Path>)
    requires WellFormed(v)
    ensures WellFormed(Pruned(v, ps))
  {
    if ps != [] {
      PrunedWellFormed(v, ps[..|ps| - 1]);
      DeleteAtWellFormed(Pruned(v, ps[..|ps| - 1]), ps[|ps| - 1]);
    }
  }

  lemma {:induction false} PrunedLeaf(v: Value, ps: seq<Path>)
    requires !v.Obj? && !v.Arr?
    ensures Pruned(v, ps) == v
  {
    if ps != [] { PrunedLeaf(v, ps[..|ps| - 1]); }
  }

  /** What pruning leaves under one key of an object. */
  function PrunedMember(fields: seq<Pair<Value>>, ps: seq<Path>, k: string): (r: Option<Value>)
  {
    if Lookup(fields, k).None? || [Key(k)] in ps then None
    else Some(Pruned(Lookup(fields, k).value, Below(ps, Key(k))))
  }

  lemma DeleteObjectShape(before: seq<Pair<Value>>, p: Path)
    requires DistinctKeys(before)
    ensures DeleteAt(Obj(before), p).Obj? && DistinctKeys(DeleteAt(Obj(before), p).fields)
  {
    if p != [] && p[0].Key? { RemoveKeyLookup(before, p[0].key); }
  }

  lemma {:induction false} PrunedObject(fields: seq<Pair<Value>>, ps: seq<Path>)
    requires DistinctKeys(fields)
    ensures Pruned(Obj(fields), ps).Obj? && DistinctKeys(Pruned(Obj(fields), ps).fields)
    ensures forall k :: Lookup(Pruned(Obj(fields), ps).fields, k) == PrunedMember(fields, ps, k)
  {
    if ps == [] {
      assert forall k :: Below([], Key(k)) == [];
    } else {
      var init, p := ps[..|ps| - 1], ps[|ps| - 1];
      PrunedObject(fields, init);
      var before := Pruned(Obj(fields), init);
      DeleteObjectShape(before.fields, p);
      forall k ensures Lookup(Pruned(Obj(fields), ps).fields, k) == PrunedMember(fields, ps, k) {
        assert Lookup(before.fields, k) == PrunedMember(fields, init, k);
        DeleteInObject(fields, before.fields, ps, k);
      }
    }
  }

  lemma DeleteInObject(fields: seq<Pair<Value>>, before: seq<Pair<Value>>, ps: seq<Path>, k: string)
    requires DistinctKeys(before) && ps != []
    requires Lookup(before, k) == PrunedMember(fields, ps[..|ps| - 1], k)
    ensures DeleteAt(Obj(before), ps[|ps| - 1]).Obj?
    ensures Lookup(DeleteAt(Obj(before), ps[|ps| - 1]).fields, k) == PrunedMember(fields, ps, k)
  {
    hide RemoveKey, SetKey, Lookup;
    var init, p := ps[..|ps| - 1], ps[|ps| - 1];
    assert ps == init + [p];
    DeleteObjectShape(before, p);
    if p != [] && p[0] == Key(k) && Lookup(before, k).Some? {
      if |p| == 1 {
        RemoveKeyLookup(before, k);
        assert p == [Key(k)];
      } else {
        SetKeyLookup(before, k, DeleteAt(Lookup(before, k).value, p[1..]), k);
        PrunedNext(Lookup(fields, k).value, Below(init, Key(k)), p[1..]);
      }
    } else {
      DeleteElsewhere(before, p, k);
      if Lookup(before, k).Some? { assert Below(ps, Key(k)) == Below(init, Key(k)); }
    }
  }

  lemma DeleteElsewhere(before: seq<Pair<Value>>, p: Path, k: string)
    requires DistinctKeys(before)
    requires p == [] || p[0] != Key(k) || Lookup(before, k).None?
    ensures DeleteAt(Obj(before), p).Obj? && Lookup(DeleteAt(Obj(before), p).fields, k) == Lookup(before, k)
  {
    if p != [] && p[0].Key? && Lookup(before, p[0].key).Some? {
      RemoveKeyLookup(before, p[0].key);
      SetKeyLookup(before, p[0].key, DeleteAt(Lookup(before, p[0].key).value, p[1..]), k);
    }
  }

  lemma {:induction false} PrunedArray(items: seq<Value>, ps: seq<Path>)
    requires forall p :: p in ps ==> EndsInKey(p)
    ensures Pruned(Arr(items), ps).Arr? && |Pruned(Arr(items), ps).items| == |items|
    ensures forall i :: 0 <= i < |items| ==> Pruned(Arr(items), ps).items[i] == Pruned(items[i], Below(ps, Index(i)))
  {
    if ps != [] {
      var init := ps[..|ps| - 1];
      assert forall q :: q in init ==> q in ps;
      assert ps[|ps| - 1] in ps;
      PrunedArray(items, init);
      var before := Pruned(Arr(items), init).items;
      forall i | 0 <= i < |items| ensures Pruned(Arr(items), ps).items[i] == Pruned(items[i], Below(ps, Index(i))) {
        DeleteInArray(items, before, ps, i);
      }
    }
  }

  lemma DeleteInArray(items: seq<Value>, before: seq<Value>, ps: seq<Path>, i: nat)
    requires ps != [] && EndsInKey(ps[|ps| - 1]) && i < |items| == |before|
    requires before[i] == Pruned(items[i], Below(ps[..|ps| - 1], Index(i)))
    ensures DeleteAt(Arr(before), ps[|ps| - 1]).Arr? && |DeleteAt(Arr(before), ps[|ps| - 1]).items| == |items|
    ensures DeleteAt(Arr(before), ps[|ps| - 1]).items[i] == Pruned(items[i], Below(ps, Index(i)))
  {
    var init, p := ps[..|ps| - 1], ps[|ps| - 1];
    if p[0] == Index(i) {
      PrunedNext(items[i], Below(init, Index(i)), p[1..]);
    } else {
      assert Below(ps, Index(i)) == Below(init, Index(i));
    }
  }

  /** The rules print strings and bigints alike. */
  ghost predicate SameTexts(a: Rules, b: Rules)
  {
    && (forall s: string, k: Option<string> :: a.text(s, k) == b.text(s, k))
    && (forall n: int :: a.bigint(n) == b.bigint(n))
  }

  /** `ps` lists exactly the material paths of `v`. */
  ghost predicate ListsMaterial(ps: seq<Path>, v: Value, legacy: Rules, current: Rules, pos: Pos)
  {
    forall p :: p in ps <==> Material(v, p, legacy, current, pos)
  }

  /**
   * Deleting the material paths, in any order, leaves a value whose form under the current rules is the form the source
   * had under the legacy ones.
   */
  lemma {:induction false} PrunedNormal(v: Value, ps: seq<Path>, legacy: Rules, current: Rules, pos: Pos)
    requires WellFormed(v) && DropsWithin(current, legacy) && SameTexts(current, legacy)
    requires ListsMaterial(ps, v, legacy, current, pos)
    ensures Normalize(Pruned(v, ps), current, pos) == Normalize(v, legacy, pos)
    decreases v
  {
    match v
    case Arr(items) =>
      forall p | p in ps ensures EndsInKey(p) { MaterialUnauthenticated(v, p, legacy, current, pos); }
      PrunedArray(items, ps);
      forall i | 0 <= i < |items|
        ensures Normalize(Pruned(v, ps).items[i], current, InItem(pos)) == Normalize(items[i], legacy, InItem(pos))
      {
        BelowItemMaterial(v, ps, i, legacy, current, pos);
        PrunedNormal(items[i], Below(ps, Index(i)), legacy, current, InItem(pos));
      }
      assert NormItems(Pruned(v, ps).items, current, pos) == NormItems(items, legacy, pos);
    case Obj(fields) =>
      PrunedObject(fields, ps);
      var gs := Pruned(v, ps).fields;
      forall k ensures ShownMember(gs, k, current, pos) == ShownMember(fields, k, legacy, pos) {
        if Lookup(fields, k).Some? && !legacy.excluded(k, pos.depth, pos.parent) {
          var i :| 0 <= i < |fields| && fields[i].key == k && fields[i].val == Lookup(fields, k).value;
          BelowMemberMaterial(v, ps, k, legacy, current, pos);
          PrunedNormal(fields[i].val, Below(ps, Key(k)), legacy, current, InKey(pos, k));
        }
        PrunedMemberShown(v, ps, k, legacy, current, pos);
      }
      ObjectsNormalEqual(gs, fields, current, legacy, pos);
    case _ => PrunedLeaf(v, ps);
  }

  lemma BelowItemMaterial(v: Value, ps: seq<Path>, i: nat, legacy: Rules, current: Rules, pos: Pos)
    requires v.Arr? && i < |v.items| && ListsMaterial(ps, v, legacy, current, pos)
    ensures ListsMaterial(Below(ps, Index(i)), v.items[i], legacy, current, InItem(pos))
  {
    forall q ensures q in Below(ps, Index(i)) <==> Material(v.items[i], q, legacy, current, InItem(pos)) {
      BelowMember(ps, Index(i), q);
      var p := [Index(i)] + q;
      assert p[1..] == q;
      assert p in ps <==> Material(v, p, legacy, current, pos);
    }
  }

  lemma BelowMemberMaterial(v: Value, ps: seq<Path>, k: string, legacy: Rules, current: Rules, pos: Pos)
    requires v.Obj? && Lookup(v.fields, k).Some? && !legacy.excluded(k, pos.depth, pos.parent)
    requires ListsMaterial(ps, v, legacy, current, pos)
    ensures ListsMaterial(Below(ps, Key(k)), Lookup(v.fields, k).value, legacy, current, InKey(pos, k))
  {
    var child := Lookup(v.fields, k).value;
    forall q ensures q in Below(ps, Key(k)) <==> Material(child, q, legacy, current, InKey(pos, k)) {
      BelowMember(ps, Key(k), q);
      var p := [Key(k)] + q;
      assert p[1..] == q;
      assert p in ps <==> Material(v, p, legacy, current, pos);
    }
  }

  lemma PrunedMemberShown(v: Value, ps: seq<Path>, k: string, legacy: Rules, current: Rules, pos: Pos)
    requires v.Obj? && WellFormed(v) && DropsWithin(current, legacy)
    requires ListsMaterial(ps, v, legacy, current, pos)
    requires Pruned(v, ps).Obj? && Lookup(Pruned(v, ps).fields, k) == PrunedMember(v.fields, ps, k)
    requires Lookup(v.fields, k).Some? && !legacy.excluded(k, pos.depth, pos.parent) ==>
               Normalize(Pruned(Lookup(v.fields, k).value, Below(ps, Key(k))), current, InKey(pos, k))
               == Normalize(Lookup(v.fields, k).value, legacy, InKey(pos, k))
    ensures ShownMember(Pruned(v, ps).fields, k, current, pos) == ShownMember(v.fields, k, legacy, pos)
  {
    var p := [Key(k)];
    assert p in ps <==> Material(v, p, legacy, current, pos);
    assert current.excluded(k, pos.depth, pos.parent) ==> legacy.excluded(k, pos.depth, pos.parent);
    if Lookup(v.fields, k).Some? {
      var child := Lookup(v.fields, k).value;
      assert Member(v, k) == child;
      PrunedKind(child, Below(ps, Key(k)));
      assert p[1..] == [] && !Material(child, [], legacy, current, InKey(pos, k));
      assert p in ps ==> legacy.excluded(k, pos.depth, pos.parent);
    }
  }

  lemma {:induction false} PrunedKind(v: Value, ps: seq<Path>)
    ensures Pruned(v, ps).Undefined? <==> v.Undefined?
  {
    if ps != [] { PrunedKind(v, ps[..|ps| - 1]); }
  }

  // ----- reading beside a deletion

  ghost predicate Comparable(p: Path, q: Path)
  {
    p <= q || q <= p
  }

  lemma {:induction false} DeleteKeepsBeside(v: Value, q: Path, p: Path)
    requires WellFormed(v) && Present(v, p) && !Comparable(p, q)
    ensures Present(DeleteAt(v, q), p) && At(DeleteAt(v, q), p) == At(v, p)
    decreases p
  {
    assert p != [] && q != [];
    if p[0] != q[0] {
      match q[0]
      case Key(h) =>
        if v.Obj? && Lookup(v.fields, h).Some? {
          if |q| == 1 { RemoveKeyLookup(v.fields, h); }
          else { SetKeyLookup(v.fields, h, DeleteAt(Lookup(v.fields, h).value, q[1..]), p[0].key); }
        }
      case Index(_) =>
    } else {
      assert !Comparable(p[1..], q[1..]) by {
        assert p == [p[0]] + p[1..] && q == [q[0]] + q[1..];
      }
      assert |q| > 1;
      match p[0]
      case Key(k) =>
        DeleteKeepsBeside(Lookup(v.fields, k).value, q[1..], p[1..]);
        SetKeyLookup(v.fields, k, DeleteAt(Lookup(v.fields, k).value, q[1..]), k);
      case Index(i) => DeleteKeepsBeside(v.items[i], q[1..], p[1..]);
    }
  }

  lemma {:induction false} PrunedKeepsBeside(v: Value, ps: seq<Path>, p: Path)
    requires WellFormed(v) && Present(v, p)
    requires forall q :: q in ps ==> !Comparable(p, q)
    ensures Present(Pruned(v, ps), p) && At(Pruned(v, ps), p) == At(v, p)
  {
    if ps != [] {
      var init := ps[..|ps| - 1];
      assert forall q :: q in init ==> q in ps;
      PrunedKeepsBeside(v, init, p);
      PrunedWellFormed(v, init);
      DeleteKeepsBeside(Pruned(v, init), ps[|ps| - 1], p);
    }
  }

  // ----- what is deleted stays deleted

  /** getAtPath: undefined where the path is missing. */
  function TryAt(v: Value, path: Path): (r: Value)
  {
    if Present(v, path) then At(v, path) else Undefined
  }

  lemma {:induction false} DeletedIsGone(v: Value, p: Path)
    requires WellFormed(v) && EndsInKey(p)
    ensures TryAt(DeleteAt(v, p), p) == Undefined
    decreases p
  {
    match p[0]
    case Key(k) =>
      if v.Obj? && Lookup(v.fields, k).Some? {
        if |p| == 1 {
          RemoveKeyLookup(v.fields, k);
        } else {
          DeletedIsGone(Lookup(v.fields, k).value, p[1..]);
          SetKeyLookup(v.fields, k, DeleteAt(Lookup(v.fields, k).value, p[1..]), k);
        }
      }
    case Index(i) =>
      if v.Arr? && i < |v.items| { DeletedIsGone(v.items[i], p[1..]); }
  }

  lemma AtOneKey(v: Value, k: string)
    requires v.Obj? && Lookup(v.fields, k).Some?
    ensures Present(v, [Key(k)]) && At(v, [Key(k)]) == Lookup(v.fields, k).value
  {
    assert [Key(k)][1..] == [];
  }

  lemma {:induction false} GoneStaysGone(v: Value, q: Path, p: Path)
    requires WellFormed(v) && EndsInKey(p) && TryAt(v, p) == Undefined
    ensures TryAt(DeleteAt(v, q), p) == Undefined
    decreases p
  {
    if q != [] {
      match p[0]
      case Key(k) =>
        if v.Obj? && Lookup(v.fields, k).Some? {
          if q[0] == p[0] {
            if |q| == 1 {
              RemoveKeyLookup(v.fields, k);
            } else if |p| > 1 {
              GoneStaysGone(Lookup(v.fields, k).value, q[1..], p[1..]);
              SetKeyLookup(v.fields, k, DeleteAt(Lookup(v.fields, k).value, q[1..]), k);
            } else {
              assert p == [Key(k)];
              AtOneKey(v, k);
              SetKeyLookup(v.fields, k, DeleteAt(Lookup(v.fields, k).value, q[1..]), k);
              AtOneKey(DeleteAt(v, q), k);
            }
          } else {
            DeleteElsewhere(v.fields, q, k);
          }
        } else if v.Obj? {
          DeleteElsewhere(v.fields, q, k);
        }
      case Index(i) =>
        assert p[1..] != [] && !Present(Undefined, p[1..]);
        if v.Arr? && i < |v.items| && q[0] == p[0] && |q| > 1 { GoneStaysGone(v.items[i], q[1..], p[1..]); }
    }
  }

  lemma {:induction false} PrunedIsGone(v: Value, ps: seq<Path>, p: Path)
    requires WellFormed(v) && EndsInKey(p) && p in ps
    ensures TryAt(Pruned(v, ps), p) == Undefined
  {
    var init, last := ps[..|ps| - 1], ps[|ps| - 1];
    assert ps == init + [last];
    PrunedWellFormed(v, init);
    if p in init {
      PrunedIsGone(v, init, p);
      GoneStaysGone(Pruned(v, init), last, p);
    } else {
      DeletedIsGone(Pruned(v, init), p);
    }
  }
}
