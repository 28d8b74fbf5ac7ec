/**
 * The entries of a diff, one path at a time: a path has an entry exactly when the two sides differ there and nowhere
 * above it, and the entry says what each side holds at that path, unless a secret is involved.
 */
module DiffEntries {
  import opened Common
  import opened Json
  import opened Paths
  import opened Diff

  /** What a value holds at a path, if anything is there. */
  function Found(v: Value, p: Path): (r: Option<Value>)
  {
    if Present(v, p) then Some(At(v, p)) else None
  }

  /** Two values that differ as a whole: not the same primitive, or an array beside something else. */
  predicate DifferWhole(l: Value, r: Value)
  {
    if Primitive(l) || Primitive(r) then l != r || l.NaN? else l.Arr? != r.Arr?
  }

  /** Everything above the path is compared member by member, and at the path the sides differ as a whole. */
  predicate DiffersAt(l: Value, r: Value, p: Path, d: Drops, at: Path)
    decreases p
  {
    if p == [] then DifferWhole(l, r)
    else match p[0]
      case Index(i) =>
        l.Arr? && r.Arr? && (if i < |l.items| && i < |r.items| then
                               DiffersAt(l.items[i], r.items[i], p[1..], d, at + [Index(i)])
                             else |p| == 1 && (i < |l.items| || i < |r.items|))
      case Key(k) =>
        l.Obj? && r.Obj? && !d(k, at) &&
        var x, y := Lookup(l.fields, k), Lookup(r.fields, k);
        if x.Some? && y.Some? then DiffersAt(x.value, y.value, p[1..], d, at + [Key(k)])
        else |p| == 1 && (x.Some? || y.Some?)
  }

  predicate HeldSecret(v: Option<Value>, isSecret: string -> bool)
  {
    v.Some? && HoldsSecret(v.value, isSecret)
  }

  /** The entry says what stands at its path on either side, or, where a secret is involved, nothing of it. */
  ghost predicate Describes(l: Value, r: Value, e: Entry, inSecret: bool, isSecret: string -> bool)
  {
    var x, y := Found(l, e.path), Found(r, e.path);
    && e.kind == (if x.None? then Added else if y.None? then Removed else Changed)
    && (e.secret <==> inSecret || SecretOnPath(e.path, isSecret) || HeldSecret(x, isSecret) || HeldSecret(y, isSecret))
    && e.left == (if e.secret then None else x) && e.right == (if e.secret then None else y)
  }

  ghost predicate IsEntry(l: Value, r: Value, e: Entry, m: Mode, at: Path, inSecret: bool)
  {
    DiffersAt(l, r, e.path, m.drops, at) && Describes(l, r, e, inSecret, m.isSecret)
  }

  // ----- one segment deeper

  /** The entry seen from one segment below. */
  function Below(e: Entry): (r: Entry)
    requires e.path != []
  {
    e.(path := e.path[1..])
  }

  lemma SecretStep(p: Path, isSecret: string -> bool)
    requires p != []
    ensures SecretOnPath(p, isSecret) <==> (p[0].Key? && isSecret(p[0].key)) || SecretOnPath(p[1..], isSecret)
  {
    assert forall i :: 0 < i < |p| ==> p[i] == p[1..][i - 1];
    if SecretOnPath(p[1..], isSecret) {
      var i :| 0 <= i < |p[1..]| && p[1..][i].Key? && isSecret(p[1..][i].key);
      assert p[i + 1] == p[1..][i];
    }
  }

  lemma ItemStep(l: Value, r: Value, e: Entry, m: Mode, at: Path, inSecret: bool, i: nat)
    requires e.path != [] && e.path[0] == Index(i) && l.Arr? && r.Arr? && i < |l.items| && i < |r.items|
    ensures IsEntry(l, r, e, m, at, inSecret) <==>
              IsEntry(l.items[i], r.items[i], Below(e), m, at + [Index(i)], inSecret)
  {
    hide SecretOnPath, HoldsSecret;
    SecretStep(e.path, m.isSecret);
  }

  lemma KeyStep(l: Value, r: Value, e: Entry, m: Mode, at: Path, inSecret: bool, k: string)
    requires e.path != [] && e.path[0] == Key(k) && l.Obj? && r.Obj? && !m.drops(k, at)
    requires Lookup(l.fields, k).Some? && Lookup(r.fields, k).Some?
    ensures IsEntry(l, r, e, m, at, inSecret) <==>
              IsEntry(Lookup(l.fields, k).value, Lookup(r.fields, k).value, Below(e), m, at + [Key(k)],
                      inSecret || m.isSecret(k))
  {
    hide SecretOnPath, HoldsSecret, Lookup;
    SecretStep(e.path, m.isSecret);
  }

  /** An entry for something only one side has is the one that is recorded. */
  lemma OneSided(l: Value, r: Value, e: Entry, m: Mode, at: Path, inSecret: bool, seg: Seg, x: Option<Value>,
                 y: Option<Value>)
    requires e.path == [seg] && Found(l, e.path) == x && Found(r, e.path) == y && (x.Some? <==> y.None?)
    ensures Describes(l, r, e, inSecret, m.isSecret) <==>
              var secret := inSecret || (seg.Key? && m.isSecret(seg.key));
              e == if y.None? then Record([seg], Removed, x.value, Undefined, secret, m.isSecret)
                   else Record([seg], Added, Undefined, y.value, secret, m.isSecret)
  {
    hide Found;
    SecretStep(e.path, m.isSecret);
    assert e.path[1..] == [] && !SecretOnPath([], m.isSecret);
    assert !HoldsSecret(Undefined, m.isSecret);
  }

  lemma FoundWhole(v: Value)
    ensures Found(v, []) == Some(v)
  {
  }

  lemma WholeEntry(l: Value, r: Value, e: Entry, m: Mode, at: Path, inSecret: bool)
    requires e.path == []
    ensures IsEntry(l, r, e, m, at, inSecret) <==>
              DifferWhole(l, r) && e == Record([], Changed, l, r, inSecret, m.isSecret)
  {
    FoundWhole(l);
    FoundWhole(r);
    assert !SecretOnPath([], m.isSecret);
  }

  // ----- arrays

  /** The entry is of an index from `i` on. */
  ghost predicate ItemEntry(ls: seq<Value>, rs: seq<Value>, i: nat, e: Entry, m: Mode, at: Path, inSecret: bool)
  {
    && e.path != [] && e.path[0].Index? && e.path[0].index >= i
    && var n := e.path[0].index;
    && var j := n - i;
    if j < |ls| && j < |rs| then IsEntry(ls[j], rs[j], Below(e), m, at + [Index(n)], inSecret)
    else if j < |ls| then e == Record([Index(n)], Removed, ls[j], Undefined, inSecret, m.isSecret)
    else j < |rs| && e == Record([Index(n)], Added, Undefined, rs[j], inSecret, m.isSecret)
  }

  lemma UnderExact(seg: Seg, es: seq<Entry>, e: Entry)
    ensures e in Under(seg, es) <==> e.path != [] && e.path[0] == seg && Below(e) in es
  {
    var r := Under(seg, es);
    if e in r {
      var i :| 0 <= i < |r| && r[i] == e;
      assert e.path[1..] == es[i].path && Below(e) == es[i];
    }
    if e.path != [] && e.path[0] == seg && Below(e) in es {
      var i :| 0 <= i < |es| && es[i] == Below(e);
      assert e.path == [seg] + e.path[1..] && r[i] == e;
    }
  }

  lemma {:induction false} ItemsExact(ls: seq<Value>, rs: seq<Value>, i: nat, e: Entry, m: Mode, at: Path,
                                      inSecret: bool)
    requires (forall k :: 0 <= k < |ls| ==> WellFormed(ls[k])) && (forall k :: 0 <= k < |rs| ==> WellFormed(rs[k]))
    ensures e in CompareItems(ls, rs, i, m, at, inSecret) <==> ItemEntry(ls, rs, i, e, m, at, inSecret)
    decreases ls, |rs|
  {
    hide Compare, Record, WellFormed, IsEntry, Under;
    if ls != [] || rs != [] {
      var lt, rt := if ls == [] then ls else ls[1..], if rs == [] then rs else rs[1..];
      ItemsExact(lt, rt, i + 1, e, m, at, inSecret);
      if ls != [] && rs != [] {
        var here := Compare(ls[0], rs[0], m, at + [Index(i)], inSecret);
        UnderExact(Index(i), here, e);
        if e.path != [] { EntriesExact(ls[0], rs[0], Below(e), m, at + [Index(i)], inSecret); }
      }
    }
  }

  // ----- objects

  /** What becomes of one member of the left, by path. */
  lemma {:induction false} FieldExact(l: Value, f: Pair<Value>, r: Value, e: Entry, m: Mode, at: Path, inSecret: bool)
    requires l.Obj? && r.Obj? && WellFormed(r) && WellFormed(f.val) && Lookup(l.fields, f.key) == Some(f.val)
    ensures e in CompareField(f, r.fields, m, at, inSecret) <==>
              e.path != [] && e.path[0] == Key(f.key) && IsEntry(l, r, e, m, at, inSecret)
    decreases f.val, 3
  {
    hide Compare, Record, Under, WellFormed;
    if !m.drops(f.key, at) {
      if Lookup(r.fields, f.key).None? {
        if e.path == [Key(f.key)] { OneKey(l, r, e, m, at, inSecret, f.key); }
      } else {
        var x, secret := Lookup(r.fields, f.key).value, inSecret || m.isSecret(f.key);
        UnderExact(Key(f.key), Compare(f.val, x, m, at + [Key(f.key)], secret), e);
        LookupWellFormed(r, f.key);
        if e.path != [] && e.path[0] == Key(f.key) {
          EntriesExact(f.val, x, Below(e), m, at + [Key(f.key)], secret);
          KeyStep(l, r, e, m, at, inSecret, f.key);
        }
      }
    }
  }

  lemma LookupWellFormed(v: Value, k: string)
    requires v.Obj? && WellFormed(v) && Lookup(v.fields, k).Some?
    ensures WellFormed(Lookup(v.fields, k).value)
  {
  }

  /** A member only one side has. */
  lemma OneKey(l: Value, r: Value, e: Entry, m: Mode, at: Path, inSecret: bool, k: string)
    requires e.path == [Key(k)] && l.Obj? && r.Obj? && !m.drops(k, at)
    requires Lookup(l.fields, k).Some? <==> Lookup(r.fields, k).None?
    ensures IsEntry(l, r, e, m, at, inSecret) <==>
              var secret := inSecret || m.isSecret(k);
              e == if Lookup(r.fields, k).None? then
                     Record([Key(k)], Removed, Lookup(l.fields, k).value, Undefined, secret, m.isSecret)
                   else Record([Key(k)], Added, Undefined, Lookup(r.fields, k).value, secret, m.isSecret)
  {
    hide Record, Lookup, Describes;
    FoundKey(l, k);
    FoundKey(r, k);
    OneSided(l, r, e, m, at, inSecret, Key(k), Lookup(l.fields, k), Lookup(r.fields, k));
  }

  lemma FoundKey(v: Value, k: string)
    requires v.Obj?
    ensures Found(v, [Key(k)]) == Lookup(v.fields, k)
  {
    var p := [Key(k)];
    assert p[0] == Key(k) && p[1..] == [];
    if Lookup(v.fields, k).Some? {
      var x := Lookup(v.fields, k).value;
      assert Present(x, []) && At(x, []) == x;
      assert Present(v, p) && At(v, p) == At(x, p[1..]);
    }
  }

  lemma {:induction false} FieldsExact(l: Value, ls: seq<Pair<Value>>, r: Value, e: Entry, m: Mode, at: Path,
                                       inSecret: bool)
    requires l.Obj? && r.Obj? && WellFormed(r)
             && forall k :: 0 <= k < |ls| ==> WellFormed(ls[k].val) && Lookup(l.fields, ls[k].key) == Some(ls[k].val)
    ensures e in CompareFields(ls, r.fields, m, at, inSecret) <==>
              && e.path != [] && IsEntry(l, r, e, m, at, inSecret)
              && exists i :: 0 <= i < |ls| && e.path[0] == Key(ls[i].key)
    decreases ls, 0
  {
    hide Compare, Record, WellFormed, Lookup, IsEntry, CompareField;
    if ls != [] {
      FieldsExact(l, ls[1..], r, e, m, at, inSecret);
      FieldExact(l, ls[0], r, e, m, at, inSecret);
      assert forall i :: 0 < i < |ls| ==> ls[i] == ls[1..][i - 1];
      if e.path != [] && exists i :: 0 <= i < |ls[1..]| && e.path[0] == Key(ls[1..][i].key) {
        var i :| 0 <= i < |ls[1..]| && e.path[0] == Key(ls[1..][i].key);
        assert e.path[0] == Key(ls[i + 1].key);
      }
    }
  }

  /** The entry is of a key only these members have. */
  ghost predicate OnlyRight(l: Value, rs: seq<Pair<Value>>, e: Entry)
    requires l.Obj?
  {
    e.path != [] && exists i :: 0 <= i < |rs| && e.path[0] == Key(rs[i].key) && Lookup(l.fields, rs[i].key).None?
  }

  lemma {:induction false} AddedExact(l: Value, r: Value, rs: seq<Pair<Value>>, e: Entry, m: Mode, at: Path,
                                      inSecret: bool)
    requires l.Obj? && r.Obj? && forall k :: 0 <= k < |rs| ==> Lookup(r.fields, rs[k].key) == Some(rs[k].val)
    ensures e in AddedFields(l.fields, rs, m, at, inSecret) <==>
              IsEntry(l, r, e, m, at, inSecret) && OnlyRight(l, rs, e)
    decreases rs
  {
    hide Record, Lookup, IsEntry;
    if rs != [] {
      var k := rs[0].key;
      AddedExact(l, r, rs[1..], e, m, at, inSecret);
      assert forall i :: 0 < i < |rs| ==> rs[i] == rs[1..][i - 1];
      if Lookup(l.fields, k).None? && e.path != [] && e.path[0] == Key(k) { AddedKey(l, r, e, m, at, inSecret, k); }
      if OnlyRight(l, rs[1..], e) {
        var i :| 0 <= i < |rs[1..]| && e.path[0] == Key(rs[1..][i].key) && Lookup(l.fields, rs[1..][i].key).None?;
        assert e.path[0] == Key(rs[i + 1].key);
      }
    }
  }

  lemma AddedKey(l: Value, r: Value, e: Entry, m: Mode, at: Path, inSecret: bool, k: string)
    requires l.Obj? && r.Obj? && e.path != [] && e.path[0] == Key(k)
    requires Lookup(l.fields, k).None? && Lookup(r.fields, k).Some?
    ensures IsEntry(l, r, e, m, at, inSecret) <==>
              !m.drops(k, at) && e == Record([Key(k)], Added, Undefined, Lookup(r.fields, k).value,
                                             inSecret || m.isSecret(k), m.isSecret)
  {
    hide Record, Lookup;
    if |e.path| == 1 && !m.drops(k, at) {
      assert e.path == [Key(k)];
      OneKey(l, r, e, m, at, inSecret, k);
    }
  }

  /** Below an object an entry is of a key one of the sides has. */
  lemma KeyedEntry(l: Value, r: Value, e: Entry, m: Mode, at: Path, inSecret: bool)
    requires l.Obj? && r.Obj? && IsEntry(l, r, e, m, at, inSecret)
    ensures e.path != [] && e.path[0].Key?
    ensures HasKey(l.fields, e.path[0].key) || (HasKey(r.fields, e.path[0].key) && !HasKey(l.fields, e.path[0].key))
  {
    hide Describes;
  }

  /** What is recorded is exactly, for every path at which the two sides differ, what they hold there. */
  lemma {:induction false} EntriesExact(l: Value, r: Value, e: Entry, m: Mode, at: Path, inSecret: bool)
    requires WellFormed(l) && WellFormed(r)
    ensures e in Compare(l, r, m, at, inSecret) <==> IsEntry(l, r, e, m, at, inSecret)
    decreases l, 2
  {
    hide CompareItems, CompareFields, AddedFields, Record, Lookup, Describes;
    if e.path == [] { WholeEntry(l, r, e, m, at, inSecret); }
    if l.Arr? && r.Arr? {
      ItemsExact(l.items, r.items, 0, e, m, at, inSecret);
      ArrayEntry(l, r, e, m, at, inSecret);
    } else if l.Obj? && r.Obj? {
      ObjectLookups(l);
      ObjectLookups(r);
      FieldsExact(l, l.fields, r, e, m, at, inSecret);
      AddedExact(l, r, r.fields, e, m, at, inSecret);
      if IsEntry(l, r, e, m, at, inSecret) { KeyedEntry(l, r, e, m, at, inSecret); }
    }
  }

  lemma ObjectLookups(v: Value)
    requires v.Obj? && WellFormed(v)
    ensures forall k :: 0 <= k < |v.fields| ==>
              WellFormed(v.fields[k].val) && Lookup(v.fields, v.fields[k].key) == Some(v.fields[k].val)
  {
    forall k | 0 <= k < |v.fields| ensures Lookup(v.fields, v.fields[k].key) == Some(v.fields[k].val) {
      LookupAt(v.fields, k);
    }
  }

  lemma ArrayEntry(l: Value, r: Value, e: Entry, m: Mode, at: Path, inSecret: bool)
    requires l.Arr? && r.Arr?
    ensures IsEntry(l, r, e, m, at, inSecret) <==> ItemEntry(l.items, r.items, 0, e, m, at, inSecret)
  {
    hide Record, Describes;
    if e.path != [] && e.path[0].Index? {
      var i := e.path[0].index;
      if i < |l.items| && i < |r.items| {
        ItemStep(l, r, e, m, at, inSecret, i);
      } else if (i < |l.items| || i < |r.items|) && |e.path| == 1 {
        assert e.path == [Index(i)];
        FoundItem(l, i);
        FoundItem(r, i);
        OneSided(l, r, e, m, at, inSecret, Index(i), Found(l, e.path), Found(r, e.path));
      }
    }
  }

  lemma FoundItem(v: Value, i: nat)
    requires v.Arr?
    ensures Found(v, [Index(i)]) == if i < |v.items| then Some(v.items[i]) else None
  {
    var p := [Index(i)];
    assert p[0] == Index(i) && p[1..] == [];
    if i < |v.items| {
      var x := v.items[i];
      assert Present(x, []) && At(x, []) == x;
      assert Present(v, p) && At(v, p) == At(x, p[1..]);
    }
  }
}
