/**
 * The semantic diff of two artifacts: exact, patchable, and silent about secrets. A diff entry is at a path; its text
 * is what the source prints. Which keys are not compared is a test of the key and of where it sits.
 */
module Diff {
  import opened Common
  import opened Json
  import opened Paths

  /** Whether a key is not compared, in an object at this path. */
  type Drops = (string, Path) -> bool

  datatype Kind = Added | Removed | Changed

  /** A difference; a secret one carries no value. */
  datatype Entry = Entry(path: Path, kind: Kind, left: Option<Value>, right: Option<Value>, secret: bool)

  predicate Primitive(v: Value)
  {
    !v.Obj? && !v.Arr?
  }

  // ----- secrets

  /** holdsSecret: some member at some depth has a secret name. */
  predicate HoldsSecret(v: Value, isSecret: string -> bool)
    decreases v
  {
    match v
    case Arr(items) => SomeItemSecret(items, isSecret)
    case Obj(fields) => SomeFieldSecret(fields, isSecret)
    case _ => false
  }

  predicate SomeItemSecret(items: seq<Value>, isSecret: string -> bool)
    decreases items
  {
    items != [] && (HoldsSecret(items[0], isSecret) || SomeItemSecret(items[1..], isSecret))
  }

  predicate SomeFieldSecret(fields: seq<Pair<Value>>, isSecret: string -> bool)
    decreases fields
  {
    fields != [] && (isSecret(fields[0].key) || HoldsSecret(fields[0].val, isSecret)
                     || SomeFieldSecret(fields[1..], isSecret))
  }

  ghost predicate SecretOnPath(path: Path, isSecret: string -> bool)
  {
    exists i :: 0 <= i < |path| && path[i].Key? && isSecret(path[i].key)
  }

  // ----- recording

  /** record: under a secret key, or when either value holds one, only that it differs. */
  function Record(path: Path, kind: Kind, left: Value, right: Value, inSecret: bool,
                  isSecret: string -> bool): (e: Entry)
    ensures e.path == path && e.kind == kind
    ensures e.secret <==> inSecret || HoldsSecret(left, isSecret) || HoldsSecret(right, isSecret)
    ensures e.secret ==> e.left.None? && e.right.None?
  {
    if inSecret || HoldsSecret(left, isSecret) || HoldsSecret(right, isSecret) then Entry(path, kind, None, None, true)
    else match kind
      case Added => Entry(path, kind, None, Some(right), false)
      case Removed => Entry(path, kind, Some(left), None, false)
      case Changed => Entry(path, kind, Some(left), Some(right), false)
  }

  /** The entries one segment deeper. */
  function Under(seg: Seg, es: seq<Entry>): (r: seq<Entry>)
    ensures |r| == |es| && forall i :: 0 <= i < |es| ==> r[i] == es[i].(path := [seg] + es[i].path)
  {
    seq(|es|, i requires 0 <= i < |es| => es[i].(path := [seg] + es[i].path))
  }

  // ----- the comparison, with paths relative to where it starts

  /** What the comparison is given besides the two values. */
  datatype Mode = Mode(drops: Drops, isSecret: string -> bool)

  function Compare(l: Value, r: Value, m: Mode, at: Path, inSecret: bool): (es: seq<Entry>)
    decreases l
  {
    if Primitive(l) || Primitive(r) then
      if l == r && !l.NaN? then [] else [Record([], Changed, l, r, inSecret, m.isSecret)]
    else if l.Arr? && r.Arr? then CompareItems(l.items, r.items, 0, m, at, inSecret)
    else if l.Arr? || r.Arr? then [Record([], Changed, l, r, inSecret, m.isSecret)]
    else CompareFields(l.fields, r.fields, m, at, inSecret) + AddedFields(l.fields, r.fields, m, at, inSecret)
  }

  function CompareItems(ls: seq<Value>, rs: seq<Value>, i: nat, m: Mode, at: Path, inSecret: bool): (es: seq<Entry>)
    decreases ls, |rs|
  {
    if ls == [] && rs == [] then []
    else if ls == [] then
      [Record([Index(i)], Added, Undefined, rs[0], inSecret, m.isSecret)]
        + CompareItems(ls, rs[1..], i + 1, m, at, inSecret)
    else if rs == [] then
      [Record([Index(i)], Removed, ls[0], Undefined, inSecret, m.isSecret)]
        + CompareItems(ls[1..], rs, i + 1, m, at, inSecret)
    else
      Under(Index(i), Compare(ls[0], rs[0], m, at + [Index(i)], inSecret))
      + CompareItems(ls[1..], rs[1..], i + 1, m, at, inSecret)
  }

  /** What becomes of one member of the left. */
  function CompareField(f: Pair<Value>, rs: seq<Pair<Value>>, m: Mode, at: Path, inSecret: bool): (es: seq<Entry>)
    decreases f, 1
  {
    if m.drops(f.key, at) then []
    else
      var secret := inSecret || m.isSecret(f.key);
      match Lookup(rs, f.key)
      case None => [Record([Key(f.key)], Removed, f.val, Undefined, secret, m.isSecret)]
      case Some(x) => Under(Key(f.key), Compare(f.val, x, m, at + [Key(f.key)], secret))
  }

  function CompareFields(ls: seq<Pair<Value>>, rs: seq<Pair<Value>>, m: Mode, at: Path,
                         inSecret: bool): (es: seq<Entry>)
    decreases ls
  {
    if ls == [] then [] else CompareField(ls[0], rs, m, at, inSecret) + CompareFields(ls[1..], rs, m, at, inSecret)
  }

  /** A member only the right has. */
  function AddedField(ls: seq<Pair<Value>>, f: Pair<Value>, m: Mode, at: Path, inSecret: bool): (es: seq<Entry>)
  {
    if m.drops(f.key, at) || Lookup(ls, f.key).Some? then []
    else [Record([Key(f.key)], Added, Undefined, f.val, inSecret || m.isSecret(f.key), m.isSecret)]
  }

  function AddedFields(ls: seq<Pair<Value>>, rs: seq<Pair<Value>>, m: Mode, at: Path, inSecret: bool): (es: seq<Entry>)
    decreases rs
  {
    if rs == [] then [] else AddedField(ls, rs[0], m, at, inSecret) + AddedFields(ls, rs[1..], m, at, inSecret)
  }

  // ----- values without what is not compared

  /** A value as the diff sees it: members by name, without those that are not compared. */
  datatype Tree = Leaf(v: Value) | Row(items: seq<Tree>) | Members(members: map<string, Tree>)

  function Kept(v: Value, d: Drops, at: Path): (t: Tree)
    decreases v
  {
    match v
    case Arr(items) => Row(KeptItems(items, 0, d, at))
    case Obj(fields) => Members(KeptFields(fields, d, at))
    case _ => Leaf(v)
  }

  function KeptItems(items: seq<Value>, i: nat, d: Drops, at: Path): (ts: seq<Tree>)
    ensures |ts| == |items|
    decreases items
  {
    if items == [] then [] else [Kept(items[0], d, at + [Index(i)])] + KeptItems(items[1..], i + 1, d, at)
  }

  function KeptFields(fields: seq<Pair<Value>>, d: Drops, at: Path): (r: map<string, Tree>)
    decreases fields
  {
    if fields == [] then map[]
    else
      var rest := KeptFields(fields[1..], d, at);
      if d(fields[0].key, at) then rest else rest[fields[0].key := Kept(fields[0].val, d, at + [Key(fields[0].key)])]
  }

  lemma {:induction false} KeptFieldsLookup(fields: seq<Pair<Value>>, d: Drops, at: Path, k: string)
    ensures k in KeptFields(fields, d, at) <==> !d(k, at) && Lookup(fields, k).Some?
    ensures k in KeptFields(fields, d, at) ==>
              KeptFields(fields, d, at)[k] == Kept(Lookup(fields, k).value, d, at + [Key(k)])
  {
    if fields != [] { KeptFieldsLookup(fields[1..], d, at, k); }
  }

  // ----- applying a diff

  /** One entry applied below `at`: a change replaces, an addition enters, a removal leaves. */
  function Apply(t: Tree, e: Entry, d: Drops, at: Path): (r: Tree)
    decreases e.path
  {
    if e.path == [] then (if e.right.Some? then Kept(e.right.value, d, at) else t)
    else
      var below := at + [e.path[0]];
      var deeper := e.(path := e.path[1..]);
      match e.path[0]
      case Key(k) =>
        if !t.Members? then t
        else if |e.path| == 1 && e.kind == Removed then Members(t.members - {k})
        else if |e.path| == 1 && e.kind == Added then
          (if e.right.Some? then Members(t.members[k := Kept(e.right.value, d, below)]) else t)
        else if k in t.members then Members(t.members[k := Apply(t.members[k], deeper, d, below)])
        else t
      case Index(i) =>
        if !t.Row? then t
        else if |e.path| == 1 && e.kind == Removed then (if i < |t.items| then Row(t.items[..i]) else t)
        else if |e.path| == 1 && e.kind == Added then
          (if e.right.Some? && i == |t.items| then Row(t.items + [Kept(e.right.value, d, below)]) else t)
        else if i < |t.items| then Row(t.items[i := Apply(t.items[i], deeper, d, below)])
        else t
  }

  function ApplyAll(t: Tree, es: seq<Entry>, d: Drops, at: Path): (r: Tree)
    decreases |es|
  {
    if es == [] then t else ApplyAll(Apply(t, es[0], d, at), es[1..], d, at)
  }

  lemma {:induction false} ApplyAppend(t: Tree, a: seq<Entry>, b: seq<Entry>, d: Drops, at: Path)
    ensures ApplyAll(t, a + b, d, at) == ApplyAll(ApplyAll(t, a, d, at), b, d, at)
    decreases |a|
  {
    hide Apply;
    if a == [] {
      assert a + b == b;
    } else {
      assert (a + b)[1..] == a[1..] + b && (a + b)[0] == a[0];
      ApplyAppend(Apply(t, a[0], d, at), a[1..], b, d, at);
    }
  }

  /** At its own path a comparison only changes. */
  ghost predicate ChangesHere(es: seq<Entry>)
  {
    forall i :: 0 <= i < |es| && es[i].path == [] ==> es[i].kind == Changed
  }

  lemma {:induction false} LiftKey(ms: map<string, Tree>, k: string, es: seq<Entry>, d: Drops, at: Path)
    requires k in ms && ChangesHere(es)
    ensures ApplyAll(Members(ms), Under(Key(k), es), d, at) == Members(ms[k := ApplyAll(ms[k], es, d, at + [Key(k)])])
    decreases |es|
  {
    var up := Under(Key(k), es);
    if es == [] {
      assert ms == ms[k := ms[k]];
    } else {
      var e := es[0];
      assert up[0].path[1..] == e.path && up[0].(path := e.path) == e;
      var next := ms[k := Apply(ms[k], e, d, at + [Key(k)])];
      assert Apply(Members(ms), up[0], d, at) == Members(next);
      assert up[1..] == Under(Key(k), es[1..]);
      LiftKey(next, k, es[1..], d, at);
      assert next[k := ApplyAll(next[k], es[1..], d, at + [Key(k)])]
             == ms[k := ApplyAll(next[k], es[1..], d, at + [Key(k)])];
    }
  }

  lemma {:induction false} LiftIndex(items: seq<Tree>, i: nat, es: seq<Entry>, d: Drops, at: Path)
    requires i < |items| && ChangesHere(es)
    ensures ApplyAll(Row(items), Under(Index(i), es), d, at)
            == Row(items[i := ApplyAll(items[i], es, d, at + [Index(i)])])
    decreases |es|
  {
    var up := Under(Index(i), es);
    if es == [] {
      assert items == items[i := items[i]];
    } else {
      var e := es[0];
      assert up[0].path[1..] == e.path && up[0].(path := e.path) == e;
      var next := items[i := Apply(items[i], e, d, at + [Index(i)])];
      assert Apply(Row(items), up[0], d, at) == Row(next);
      assert up[1..] == Under(Index(i), es[1..]);
      LiftIndex(next, i, es[1..], d, at);
      assert next[i := ApplyAll(next[i], es[1..], d, at + [Index(i)])]
             == items[i := ApplyAll(next[i], es[1..], d, at + [Index(i)])];
    }
  }

  ghost predicate NoSecret(es: seq<Entry>)
  {
    forall i :: 0 <= i < |es| ==> !es[i].secret
  }

  ghost predicate Deep(es: seq<Entry>)
  {
    forall i :: 0 <= i < |es| ==> es[i].path != []
  }

  lemma {:induction false} ItemsAreDeep(ls: seq<Value>, rs: seq<Value>, i: nat, m: Mode, at: Path, inSecret: bool)
    ensures Deep(CompareItems(ls, rs, i, m, at, inSecret))
    decreases ls, |rs|
  {
    hide Compare, Record;
    if ls == [] && rs == [] {
    } else if ls == [] {
      ItemsAreDeep(ls, rs[1..], i + 1, m, at, inSecret);
    } else if rs == [] {
      ItemsAreDeep(ls[1..], rs, i + 1, m, at, inSecret);
    } else {
      ItemsAreDeep(ls[1..], rs[1..], i + 1, m, at, inSecret);
    }
  }

  lemma {:induction false} FieldsAreDeep(ls: seq<Pair<Value>>, rs: seq<Pair<Value>>, m: Mode, at: Path, inSecret: bool)
    ensures Deep(CompareFields(ls, rs, m, at, inSecret))
  {
    hide Compare, Record;
    if ls != [] { FieldsAreDeep(ls[1..], rs, m, at, inSecret); }
  }

  lemma {:induction false} AddedAreDeep(ls: seq<Pair<Value>>, rs: seq<Pair<Value>>, m: Mode, at: Path, inSecret: bool)
    ensures Deep(AddedFields(ls, rs, m, at, inSecret))
  {
    hide Record;
    if rs != [] { AddedAreDeep(ls, rs[1..], m, at, inSecret); }
  }

  lemma ComparisonChangesHere(l: Value, r: Value, m: Mode, at: Path, inSecret: bool)
    ensures ChangesHere(Compare(l, r, m, at, inSecret))
  {
    hide CompareItems, CompareFields, AddedFields, Record;
    if l.Arr? && r.Arr? {
      ItemsAreDeep(l.items, r.items, 0, m, at, inSecret);
    } else if l.Obj? && r.Obj? {
      FieldsAreDeep(l.fields, r.fields, m, at, inSecret);
      AddedAreDeep(l.fields, r.fields, m, at, inSecret);
    }
  }

  lemma NoSecretAppend(a: seq<Entry>, b: seq<Entry>)
    requires NoSecret(a + b)
    ensures NoSecret(a) && NoSecret(b)
  {
    assert forall i :: 0 <= i < |a| ==> (a + b)[i] == a[i];
    assert forall i :: 0 <= i < |b| ==> (a + b)[|a| + i] == b[i];
  }

  lemma NoSecretUnder(seg: Seg, es: seq<Entry>)
    requires NoSecret(Under(seg, es))
    ensures NoSecret(es)
  {
    forall i | 0 <= i < |es| ensures !es[i].secret { assert !Under(seg, es)[i].secret; }
  }

  lemma ApplyOne(t: Tree, e: Entry, d: Drops, at: Path)
    ensures ApplyAll(t, [e], d, at) == Apply(t, e, d, at)
  {
    hide Apply;
    assert [e][1..] == [];
  }

  // ----- the diff patches

  /** When nothing it records is secret, a diff applied to the left gives the right, up to what is not compared. */
  lemma {:induction false} DiffPatches(l: Value, r: Value, m: Mode, at: Path, inSecret: bool)
    requires WellFormed(l) && WellFormed(r) && NoSecret(Compare(l, r, m, at, inSecret))
    ensures ApplyAll(Kept(l, m.drops, at), Compare(l, r, m, at, inSecret), m.drops, at) == Kept(r, m.drops, at)
    decreases l, 1
  {
    hide CompareItems, CompareFields, AddedFields, KeptItems, KeptFields;
    var es := Compare(l, r, m, at, inSecret);
    if Primitive(l) || Primitive(r) {
      if es != [] { ApplyOne(Kept(l, m.drops, at), es[0], m.drops, at); }
    } else if l.Arr? && r.Arr? {
      PatchItems([], l.items, r.items, 0, m, at, inSecret);
      NoPrefix(l.items, r.items, m, at);
    } else if l.Arr? || r.Arr? {
      ApplyOne(Kept(l, m.drops, at), es[0], m.drops, at);
    } else {
      PatchObjects(l.fields, r.fields, m, at, inSecret);
    }
  }

  lemma NoPrefix(ls: seq<Value>, rs: seq<Value>, m: Mode, at: Path)
    ensures [] + KeptItems(ls, 0, m.drops, at) == KeptItems(ls, 0, m.drops, at)
    ensures [] + KeptItems(rs, 0, m.drops, at) == KeptItems(rs, 0, m.drops, at)
  {
  }

  lemma {:induction false} PatchItems(done: seq<Tree>, ls: seq<Value>, rs: seq<Value>, i: nat, m: Mode, at: Path,
                                      inSecret: bool)
    requires |done| == i && NoSecret(CompareItems(ls, rs, i, m, at, inSecret))
    requires (forall k :: 0 <= k < |ls| ==> WellFormed(ls[k])) && (forall k :: 0 <= k < |rs| ==> WellFormed(rs[k]))
    ensures ApplyAll(Row(done + KeptItems(ls, i, m.drops, at)), CompareItems(ls, rs, i, m, at, inSecret), m.drops, at)
            == Row(done + KeptItems(rs, i, m.drops, at))
    decreases ls, |rs|
  {
    hide Apply, Compare, Record, Kept;
    var d := m.drops;
    if ls == [] && rs == [] {
    } else if ls == [] {
      var rest := CompareItems(ls, rs[1..], i + 1, m, at, inSecret);
      var x := Kept(rs[0], d, at + [Index(i)]);
      AppendStep(done, rs[0], i, rest, m, at, inSecret);
      PatchItems(done + [x], ls, rs[1..], i + 1, m, at, inSecret);
      assert done + [x] + KeptItems(rs[1..], i + 1, d, at) == done + KeptItems(rs, i, d, at);
    } else if rs == [] {
      TruncateItems(done, ls, i, m, at, inSecret);
    } else {
      var here := Compare(ls[0], rs[0], m, at + [Index(i)], inSecret);
      var rest := CompareItems(ls[1..], rs[1..], i + 1, m, at, inSecret);
      var x := Kept(rs[0], d, at + [Index(i)]);
      NoSecretAppend(Under(Index(i), here), rest);
      NoSecretUnder(Index(i), here);
      ComparisonChangesHere(ls[0], rs[0], m, at + [Index(i)], inSecret);
      DiffPatches(ls[0], rs[0], m, at + [Index(i)], inSecret);
      ReplaceStep(done, Kept(ls[0], d, at + [Index(i)]), KeptItems(ls[1..], i + 1, d, at), i, here, x, rest, d, at);
      PatchItems(done + [x], ls[1..], rs[1..], i + 1, m, at, inSecret);
      assert done + KeptItems(ls, i, d, at)
             == done + [Kept(ls[0], d, at + [Index(i)])] + KeptItems(ls[1..], i + 1, d, at);
      assert done + [x] + KeptItems(rs[1..], i + 1, d, at) == done + KeptItems(rs, i, d, at);
    }
  }

  lemma ReplaceStep(done: seq<Tree>, was: Tree, tail: seq<Tree>, i: nat, here: seq<Entry>, x: Tree, rest: seq<Entry>,
                    d: Drops, at: Path)
    requires |done| == i && ChangesHere(here) && ApplyAll(was, here, d, at + [Index(i)]) == x
    ensures ApplyAll(Row(done + [was] + tail), Under(Index(i), here) + rest, d, at)
            == ApplyAll(Row(done + [x] + tail), rest, d, at)
  {
    hide Apply, ApplyAll;
    var before := done + [was] + tail;
    ApplyAppend(Row(before), Under(Index(i), here), rest, d, at);
    LiftIndex(before, i, here, d, at);
    assert before[i := x] == done + [x] + tail;
  }

  lemma AppendStep(done: seq<Tree>, v: Value, i: nat, rest: seq<Entry>, m: Mode, at: Path, inSecret: bool)
    requires |done| == i && NoSecret([Record([Index(i)], Added, Undefined, v, inSecret, m.isSecret)] + rest)
    ensures NoSecret(rest)
    ensures ApplyAll(Row(done + []), [Record([Index(i)], Added, Undefined, v, inSecret, m.isSecret)] + rest, m.drops,
                     at)
            == ApplyAll(Row(done + [Kept(v, m.drops, at + [Index(i)])] + []), rest, m.drops, at)
  {
    hide Kept, HoldsSecret;
    var d, e := m.drops, Record([Index(i)], Added, Undefined, v, inSecret, m.isSecret);
    var x := Kept(v, d, at + [Index(i)]);
    NoSecretAppend([e], rest);
    assert !e.secret by { assert [e][0] == e; }
    ApplyAppend(Row(done + []), [e], rest, d, at);
    ApplyOne(Row(done + []), e, d, at);
    assert done + [] == done && done + [x] + [] == done + [x];
  }

  /** Removing elements from index `|done|` on leaves the elements before it. */
  lemma {:induction false} TruncateItems(done: seq<Tree>, ls: seq<Value>, i: nat, m: Mode, at: Path, inSecret: bool)
    requires |done| == i && ls != []
    ensures ApplyAll(Row(done + KeptItems(ls, i, m.drops, at)), CompareItems(ls, [], i, m, at, inSecret), m.drops, at)
            == Row(done + KeptItems([], i, m.drops, at))
  {
    hide Kept, Compare;
    var d := m.drops;
    var e := Record([Index(i)], Removed, ls[0], Undefined, inSecret, m.isSecret);
    var rest := CompareItems(ls[1..], [], i + 1, m, at, inSecret);
    var before := done + KeptItems(ls, i, d, at);
    assert before[..i] == done && done + [] == done;
    ApplyAppend(Row(before), [e], rest, d, at);
    ApplyOne(Row(before), e, d, at);
    RemovingPastTheEnd(done, ls[1..], i + 1, m, at, inSecret);
  }

  lemma {:induction false} RemovingPastTheEnd(done: seq<Tree>, ls: seq<Value>, i: nat, m: Mode, at: Path,
                                              inSecret: bool)
    requires |done| <= i
    ensures ApplyAll(Row(done), CompareItems(ls, [], i, m, at, inSecret), m.drops, at) == Row(done)
  {
    hide Kept, Compare;
    if ls != [] {
      var e := Record([Index(i)], Removed, ls[0], Undefined, inSecret, m.isSecret);
      var rest := CompareItems(ls[1..], [], i + 1, m, at, inSecret);
      ApplyAppend(Row(done), [e], rest, m.drops, at);
      ApplyOne(Row(done), e, m.drops, at);
      RemovingPastTheEnd(done, ls[1..], i + 1, m, at, inSecret);
    }
  }

  // ----- objects

  /** The members hold, under each compared key of `ls`, what the left has. */
  ghost predicate HoldsLeft(ms: map<string, Tree>, ls: seq<Pair<Value>>, d: Drops, at: Path)
  {
    forall i :: 0 <= i < |ls| && !d(ls[i].key, at) ==>
      ls[i].key in ms && ms[ls[i].key] == Kept(ls[i].val, d, at + [Key(ls[i].key)])
  }

  /** Under a key of `ls` that is compared, what the right has; elsewhere what was there. */
  ghost predicate Updated(before: map<string, Tree>, t: Tree, ls: seq<Pair<Value>>, rs: seq<Pair<Value>>, d: Drops,
                          at: Path)
  {
    t.Members? && forall k :: UpdatedAt(before, t.members, ls, rs, d, at, k)
  }

  ghost predicate UpdatedAt(before: map<string, Tree>, after: map<string, Tree>, ls: seq<Pair<Value>>,
                            rs: seq<Pair<Value>>, d: Drops, at: Path, k: string)
  {
    if Lookup(ls, k).Some? && !d(k, at) then
      (k in after <==> Lookup(rs, k).Some?) && (k in after ==> after[k] == Kept(Lookup(rs, k).value, d, at + [Key(k)]))
    else (k in after <==> k in before) && (k in after ==> after[k] == before[k])
  }

  lemma {:induction false} PatchFields(ms: map<string, Tree>, ls: seq<Pair<Value>>, rs: seq<Pair<Value>>, m: Mode,
                                       at: Path, inSecret: bool)
    requires DistinctKeys(ls) && HoldsLeft(ms, ls, m.drops, at) && NoSecret(CompareFields(ls, rs, m, at, inSecret))
    requires (forall k :: 0 <= k < |ls| ==> WellFormed(ls[k].val))
             && (forall k :: 0 <= k < |rs| ==> WellFormed(rs[k].val))
    ensures Updated(ms, ApplyAll(Members(ms), CompareFields(ls, rs, m, at, inSecret), m.drops, at), ls, rs, m.drops, at)
    decreases ls, 0
  {
    hide Apply, Compare, CompareField, Kept, WellFormed;
    var d := m.drops;
    if ls != [] {
      var here, rest := CompareField(ls[0], rs, m, at, inSecret), CompareFields(ls[1..], rs, m, at, inSecret);
      NoSecretAppend(here, rest);
      ApplyAppend(Members(ms), here, rest, d, at);
      var mid := PatchField(ms, ls[0], rs, m, at, inSecret);
      TailDistinct(ls);
      HoldsRest(ms, mid, ls, rs, d, at);
      PatchFields(mid, ls[1..], rs, m, at, inSecret);
      var t := ApplyAll(Members(mid), rest, d, at);
      forall k ensures UpdatedAt(ms, t.members, ls, rs, d, at, k) {
        assert UpdatedAt(mid, t.members, ls[1..], rs, d, at, k);
        assert UpdatedAt(ms, mid, [ls[0]], rs, d, at, k);
        UpdatedTwice(ms, mid, t.members, ls, rs, d, at, k);
      }
    }
  }

  lemma UpdatedTwice(ms: map<string, Tree>, mid: map<string, Tree>, after: map<string, Tree>, ls: seq<Pair<Value>>,
                     rs: seq<Pair<Value>>, d: Drops, at: Path, k: string)
    requires ls != [] && DistinctKeys(ls) && UpdatedAt(ms, mid, [ls[0]], rs, d, at, k)
             && UpdatedAt(mid, after, ls[1..], rs, d, at, k)
    ensures UpdatedAt(ms, after, ls, rs, d, at, k)
  {
    hide Kept;
    assert [ls[0]][1..] == [];
    assert forall i :: 0 <= i < |ls[1..]| ==> ls[1..][i] == ls[i + 1];
  }

  lemma HoldsRest(ms: map<string, Tree>, mid: map<string, Tree>, ls: seq<Pair<Value>>, rs: seq<Pair<Value>>, d: Drops,
                  at: Path)
    requires ls != [] && DistinctKeys(ls) && HoldsLeft(ms, ls, d, at)
             && forall k :: UpdatedAt(ms, mid, [ls[0]], rs, d, at, k)
    ensures HoldsLeft(mid, ls[1..], d, at)
  {
    hide Kept;
    assert [ls[0]][1..] == [];
    forall i | 0 <= i < |ls[1..]| && !d(ls[1..][i].key, at)
      ensures ls[1..][i].key in mid && mid[ls[1..][i].key] == Kept(ls[1..][i].val, d, at + [Key(ls[1..][i].key)])
    {
      var f := ls[i + 1];
      assert ls[1..][i] == f && f.key != ls[0].key;
      assert UpdatedAt(ms, mid, [ls[0]], rs, d, at, f.key);
    }
  }

  /** One member of the left, patched. */
  lemma {:induction false} PatchField(ms: map<string, Tree>, f: Pair<Value>, rs: seq<Pair<Value>>, m: Mode, at: Path,
                                      inSecret: bool) returns (mid: map<string, Tree>)
    requires !m.drops(f.key, at) ==> f.key in ms && ms[f.key] == Kept(f.val, m.drops, at + [Key(f.key)])
    requires NoSecret(CompareField(f, rs, m, at, inSecret)) && WellFormed(f.val)
             && (forall k :: 0 <= k < |rs| ==> WellFormed(rs[k].val))
    ensures ApplyAll(Members(ms), CompareField(f, rs, m, at, inSecret), m.drops, at) == Members(mid)
    ensures forall k :: UpdatedAt(ms, mid, [f], rs, m.drops, at, k)
    decreases f.val, 2
  {
    hide Compare, Kept, WellFormed;
    var d := m.drops;
    assert [f][1..] == [];
    if d(f.key, at) {
      mid := ms;
    } else if Lookup(rs, f.key).None? {
      var e := CompareField(f, rs, m, at, inSecret)[0];
      ApplyOne(Members(ms), e, d, at);
      mid := ms - {f.key};
    } else {
      var x, secret := Lookup(rs, f.key).value, inSecret || m.isSecret(f.key);
      var here := Compare(f.val, x, m, at + [Key(f.key)], secret);
      NoSecretUnder(Key(f.key), here);
      ComparisonChangesHere(f.val, x, m, at + [Key(f.key)], secret);
      LiftKey(ms, f.key, here, d, at);
      DiffPatches(f.val, x, m, at + [Key(f.key)], secret);
      mid := ms[f.key := Kept(x, d, at + [Key(f.key)])];
    }
  }

  lemma {:induction false} PatchAdded(ms: map<string, Tree>, ls: seq<Pair<Value>>, rs: seq<Pair<Value>>, m: Mode,
                                      at: Path, inSecret: bool)
    requires DistinctKeys(rs) && NoSecret(AddedFields(ls, rs, m, at, inSecret))
    ensures var t := ApplyAll(Members(ms), AddedFields(ls, rs, m, at, inSecret), m.drops, at);
            t.Members? && forall k :: AddedAt(ms, t.members, ls, rs, m.drops, at, k)
    decreases rs
  {
    hide AddedField, Apply, Kept, AddedAt, Lookup;
    var d := m.drops;
    if rs == [] {
      forall k ensures AddedAt(ms, ms, ls, rs, d, at, k) { NothingAdded(ms, ls, d, at, k); }
    } else {
      TailDistinct(rs);
      var here, rest := AddedField(ls, rs[0], m, at, inSecret), AddedFields(ls, rs[1..], m, at, inSecret);
      NoSecretAppend(here, rest);
      ApplyAppend(Members(ms), here, rest, d, at);
      var mid := PatchOneAdded(ms, ls, rs[0], m, at, inSecret);
      PatchAdded(mid, ls, rs[1..], m, at, inSecret);
      var t := ApplyAll(Members(mid), rest, d, at);
      forall k ensures AddedAt(ms, t.members, ls, rs, d, at, k) {
        assert AddedAt(mid, t.members, ls, rs[1..], d, at, k);
        AddedTwice(ms, mid, t.members, ls, rs, d, at, k);
      }
    }
  }

  lemma NothingAdded(ms: map<string, Tree>, ls: seq<Pair<Value>>, d: Drops, at: Path, k: string)
    ensures AddedAt(ms, ms, ls, [], d, at, k)
  {
  }

  lemma PatchOneAdded(ms: map<string, Tree>, ls: seq<Pair<Value>>, f: Pair<Value>, m: Mode, at: Path, inSecret: bool)
    returns (mid: map<string, Tree>)
    requires NoSecret(AddedField(ls, f, m, at, inSecret))
    ensures ApplyAll(Members(ms), AddedField(ls, f, m, at, inSecret), m.drops, at) == Members(mid)
    ensures mid == if m.drops(f.key, at) || Lookup(ls, f.key).Some? then ms
            else ms[f.key := Kept(f.val, m.drops, at + [Key(f.key)])]
  {
    hide Kept, HoldsSecret, Lookup;
    var d := m.drops;
    if d(f.key, at) || Lookup(ls, f.key).Some? {
      mid := ms;
    } else {
      ApplyOne(Members(ms), AddedField(ls, f, m, at, inSecret)[0], d, at);
      mid := ms[f.key := Kept(f.val, d, at + [Key(f.key)])];
    }
  }

  lemma AddedTwice(ms: map<string, Tree>, mid: map<string, Tree>, after: map<string, Tree>, ls: seq<Pair<Value>>,
                   rs: seq<Pair<Value>>, d: Drops, at: Path, k: string)
    requires rs != [] && DistinctKeys(rs) && AddedAt(mid, after, ls, rs[1..], d, at, k)
    requires mid == if d(rs[0].key, at) || Lookup(ls, rs[0].key).Some? then ms
             else ms[rs[0].key := Kept(rs[0].val, d, at + [Key(rs[0].key)])]
    ensures AddedAt(ms, after, ls, rs, d, at, k)
  {
    hide Kept;
    assert forall i :: 0 <= i < |rs[1..]| ==> rs[1..][i] == rs[i + 1];
  }

  ghost predicate AddedAt(before: map<string, Tree>, after: map<string, Tree>, ls: seq<Pair<Value>>,
                          rs: seq<Pair<Value>>, d: Drops, at: Path, k: string)
  {
    if Lookup(rs, k).Some? && !d(k, at) && Lookup(ls, k).None? then
      k in after && after[k] == Kept(Lookup(rs, k).value, d, at + [Key(k)])
    else (k in after <==> k in before) && (k in after ==> after[k] == before[k])
  }

  lemma {:induction false} PatchObjects(ls: seq<Pair<Value>>, rs: seq<Pair<Value>>, m: Mode, at: Path, inSecret: bool)
    requires WellFormed(Obj(ls)) && WellFormed(Obj(rs))
             && NoSecret(CompareFields(ls, rs, m, at, inSecret) + AddedFields(ls, rs, m, at, inSecret))
    ensures ApplyAll(Members(KeptFields(ls, m.drops, at)),
                     CompareFields(ls, rs, m, at, inSecret) + AddedFields(ls, rs, m, at, inSecret), m.drops, at)
            == Members(KeptFields(rs, m.drops, at))
    decreases ls, 1
  {
    hide CompareFields, AddedFields, Kept, Apply;
    var d := m.drops;
    var ms := KeptFields(ls, d, at);
    var first, second := CompareFields(ls, rs, m, at, inSecret), AddedFields(ls, rs, m, at, inSecret);
    NoSecretAppend(first, second);
    ApplyAppend(Members(ms), first, second, d, at);
    KeptHoldsLeft(ls, d, at);
    PatchFields(ms, ls, rs, m, at, inSecret);
    var mid := ApplyAll(Members(ms), first, d, at).members;
    PatchAdded(mid, ls, rs, m, at, inSecret);
    var after := ApplyAll(Members(mid), second, d, at).members;
    forall k ensures (k in after <==> k in KeptFields(rs, d, at))
      && (k in after ==> after[k] == KeptFields(rs, d, at)[k]) {
      assert UpdatedAt(ms, mid, ls, rs, d, at, k) && AddedAt(mid, after, ls, rs, d, at, k);
      KeptFieldsLookup(ls, d, at, k);
      KeptFieldsLookup(rs, d, at, k);
    }
    assert after == KeptFields(rs, d, at);
  }

  lemma KeptHoldsLeft(ls: seq<Pair<Value>>, d: Drops, at: Path)
    requires DistinctKeys(ls)
    ensures HoldsLeft(KeptFields(ls, d, at), ls, d, at)
  {
    hide Kept, KeptFields;
    forall i | 0 <= i < |ls| && !d(ls[i].key, at)
      ensures ls[i].key in KeptFields(ls, d, at)
              && KeptFields(ls, d, at)[ls[i].key] == Kept(ls[i].val, d, at + [Key(ls[i].key)])
    {
      LookupAt(ls, i);
      KeptFieldsLookup(ls, d, at, ls[i].key);
    }
  }

  // ----- identical

  /** NaN is nowhere in the tree: `NaN !== NaN` is a difference. */
  ghost predicate NaNFree(t: Tree)
    decreases t
  {
    match t
    case Leaf(v) => !v.NaN?
    case Row(items) => forall i :: 0 <= i < |items| ==> NaNFree(items[i])
    case Members(ms) => forall k :: k in ms ==> NaNFree(ms[k])
  }

  lemma {:induction false} EqualRowsSilent(ls: seq<Value>, rs: seq<Value>, i: nat, m: Mode, at: Path, inSecret: bool)
    requires (forall k :: 0 <= k < |ls| ==> WellFormed(ls[k])) && (forall k :: 0 <= k < |rs| ==> WellFormed(rs[k]))
    ensures CompareItems(ls, rs, i, m, at, inSecret) == [] <==>
              KeptItems(ls, i, m.drops, at) == KeptItems(rs, i, m.drops, at)
                && NaNFree(Row(KeptItems(ls, i, m.drops, at)))
    decreases ls, 0
  {
    hide Compare, Kept, Record, WellFormed;
    if ls != [] && rs != [] {
      var a, b := KeptItems(ls, i, m.drops, at), KeptItems(rs, i, m.drops, at);
      IdenticalExactly(ls[0], rs[0], m, at + [Index(i)], inSecret);
      EqualRowsSilent(ls[1..], rs[1..], i + 1, m, at, inSecret);
      assert a == [Kept(ls[0], m.drops, at + [Index(i)])] + KeptItems(ls[1..], i + 1, m.drops, at);
      assert b == [Kept(rs[0], m.drops, at + [Index(i)])] + KeptItems(rs[1..], i + 1, m.drops, at);
      assert a[1..] == KeptItems(ls[1..], i + 1, m.drops, at) && b[1..] == KeptItems(rs[1..], i + 1, m.drops, at);
      assert (NaNFree(Row(a)) <==> NaNFree(a[0]) && NaNFree(Row(a[1..]))) by { RowSplit(a); }
      assert a == b <==> a[0] == b[0] && a[1..] == b[1..];
    }
  }

  lemma RowSplit(a: seq<Tree>)
    requires a != []
    ensures NaNFree(Row(a)) <==> NaNFree(a[0]) && NaNFree(Row(a[1..]))
  {
    assert forall i :: 0 <= i < |a[1..]| ==> a[1..][i] == a[i + 1];
    if NaNFree(a[0]) && NaNFree(Row(a[1..])) {
      forall i | 0 <= i < |a| ensures NaNFree(a[i]) {
        if i > 0 { assert a[i] == a[1..][i - 1]; }
      }
    }
  }

  /** Member by member: a compared key of the left says nothing. */
  ghost predicate SilentAt(f: Pair<Value>, rs: seq<Pair<Value>>, d: Drops, at: Path)
  {
    d(f.key, at) ||
    (Lookup(rs, f.key).Some? && Kept(f.val, d, at + [Key(f.key)]) == Kept(Lookup(rs, f.key).value, d, at + [Key(f.key)])
     && NaNFree(Kept(f.val, d, at + [Key(f.key)])))
  }

  lemma {:induction false} FieldsSilent(ls: seq<Pair<Value>>, rs: seq<Pair<Value>>, m: Mode, at: Path, inSecret: bool)
    requires (forall k :: 0 <= k < |ls| ==> WellFormed(ls[k].val))
             && (forall k :: 0 <= k < |rs| ==> WellFormed(rs[k].val))
    ensures CompareFields(ls, rs, m, at, inSecret) == [] <==> AllSilent(ls, rs, m.drops, at)
    decreases ls, 0
  {
    hide Compare, Kept, Record, WellFormed, NaNFree;
    if ls != [] {
      FieldsSilent(ls[1..], rs, m, at, inSecret);
      assert forall i :: 0 <= i < |ls[1..]| ==> ls[1..][i] == ls[i + 1];
      var f := ls[0];
      if !m.drops(f.key, at) && Lookup(rs, f.key).Some? {
        IdenticalExactly(f.val, Lookup(rs, f.key).value, m, at + [Key(f.key)], inSecret || m.isSecret(f.key));
      }
      assert CompareField(f, rs, m, at, inSecret) == [] <==> SilentAt(f, rs, m.drops, at);
      SilentTail(ls, rs, m.drops, at);
    }
  }

  lemma SilentTail(ls: seq<Pair<Value>>, rs: seq<Pair<Value>>, d: Drops, at: Path)
    requires ls != []
    ensures AllSilent(ls, rs, d, at) <==> SilentAt(ls[0], rs, d, at) && AllSilent(ls[1..], rs, d, at)
  {
    hide SilentAt;
    assert forall i :: 0 <= i < |ls[1..]| ==> ls[1..][i] == ls[i + 1];
    if SilentAt(ls[0], rs, d, at) && AllSilent(ls[1..], rs, d, at) {
      forall i | 0 <= i < |ls| ensures SilentAt(ls[i], rs, d, at) {
        if i > 0 { assert ls[i] == ls[1..][i - 1]; }
      }
    }
  }

  lemma {:induction false} AddedSilent(ls: seq<Pair<Value>>, rs: seq<Pair<Value>>, m: Mode, at: Path, inSecret: bool)
    ensures AddedFields(ls, rs, m, at, inSecret) == [] <==> NoneAdded(ls, rs, m.drops, at)
  {
    hide Record;
    if rs != [] {
      AddedSilent(ls, rs[1..], m, at, inSecret);
      assert forall i :: 0 <= i < |rs[1..]| ==> rs[1..][i] == rs[i + 1];
      forall i | 0 < i < |rs| ensures rs[i] == rs[1..][i - 1] { }
    }
  }

  ghost predicate AllSilent(ls: seq<Pair<Value>>, rs: seq<Pair<Value>>, d: Drops, at: Path)
  {
    forall i :: 0 <= i < |ls| ==> SilentAt(ls[i], rs, d, at)
  }

  ghost predicate NoneAdded(ls: seq<Pair<Value>>, rs: seq<Pair<Value>>, d: Drops, at: Path)
  {
    forall i :: 0 <= i < |rs| ==> d(rs[i].key, at) || Lookup(ls, rs[i].key).Some?
  }

  lemma EqualIsSilent(ls: seq<Pair<Value>>, rs: seq<Pair<Value>>, d: Drops, at: Path)
    requires DistinctKeys(ls) && DistinctKeys(rs) && KeptFields(ls, d, at) == KeptFields(rs, d, at)
             && NaNFree(Members(KeptFields(ls, d, at)))
    ensures AllSilent(ls, rs, d, at) && NoneAdded(ls, rs, d, at)
  {
    hide Kept, KeptFields, Lookup;
    forall i | 0 <= i < |ls| ensures SilentAt(ls[i], rs, d, at) {
      LookupAt(ls, i);
      KeptFieldsLookup(ls, d, at, ls[i].key);
      KeptFieldsLookup(rs, d, at, ls[i].key);
    }
    forall i | 0 <= i < |rs| ensures d(rs[i].key, at) || Lookup(ls, rs[i].key).Some? {
      LookupAt(rs, i);
      KeptFieldsLookup(ls, d, at, rs[i].key);
      KeptFieldsLookup(rs, d, at, rs[i].key);
    }
  }

  lemma SilentIsEqual(ls: seq<Pair<Value>>, rs: seq<Pair<Value>>, d: Drops, at: Path)
    requires AllSilent(ls, rs, d, at) && NoneAdded(ls, rs, d, at)
    ensures KeptFields(ls, d, at) == KeptFields(rs, d, at) && NaNFree(Members(KeptFields(ls, d, at)))
  {
    hide Kept, KeptFields, AllSilent;
    var a, b := KeptFields(ls, d, at), KeptFields(rs, d, at);
    forall k ensures (k in a <==> k in b) && (k in a ==> a[k] == b[k] && NaNFree(a[k])) {
      KeptFieldsLookup(ls, d, at, k);
      KeptFieldsLookup(rs, d, at, k);
      if k in a { SilentUnder(ls, rs, d, at, k); }
    }
    assert a == b;
  }

  lemma SilentUnder(ls: seq<Pair<Value>>, rs: seq<Pair<Value>>, d: Drops, at: Path, k: string)
    requires AllSilent(ls, rs, d, at) && Lookup(ls, k).Some?
    ensures SilentAt(Pair(k, Lookup(ls, k).value), rs, d, at)
  {
    hide SilentAt;
    var i :| 0 <= i < |ls| && ls[i].key == k && ls[i].val == Lookup(ls, k).value;
    assert ls[i] == Pair(k, Lookup(ls, k).value);
  }

  /** The diff is empty exactly when both sides are equal up to what is not compared (and hold no NaN). */
  lemma {:induction false} IdenticalExactly(l: Value, r: Value, m: Mode, at: Path, inSecret: bool)
    requires WellFormed(l) && WellFormed(r)
    ensures Compare(l, r, m, at, inSecret) == [] <==>
              Kept(l, m.drops, at) == Kept(r, m.drops, at) && NaNFree(Kept(l, m.drops, at))
    decreases l, 1
  {
    hide CompareItems, CompareFields, AddedFields, KeptItems, KeptFields;
    if Primitive(l) || Primitive(r) {
    } else if l.Arr? && r.Arr? {
      EqualRowsSilent(l.items, r.items, 0, m, at, inSecret);
    } else if l.Obj? && r.Obj? {
      FieldsSilent(l.fields, r.fields, m, at, inSecret);
      AddedSilent(l.fields, r.fields, m, at, inSecret);
      var a, b := KeptFields(l.fields, m.drops, at), KeptFields(r.fields, m.drops, at);
      if a == b && NaNFree(Members(a)) { EqualIsSilent(l.fields, r.fields, m.drops, at); }
      if AllSilent(l.fields, r.fields, m.drops, at)
        && NoneAdded(l.fields, r.fields, m.drops, at) { SilentIsEqual(l.fields, r.fields, m.drops, at); }
    }
  }

  // ----- secrecy

  /** What an entry that is not secret may carry, and what a secret one may not. */
  ghost predicate Discreet(e: Entry, inSecret: bool, isSecret: string -> bool)
  {
    && (e.secret ==> e.left.None? && e.right.None?)
    && (!e.secret ==>
          && !inSecret && !SecretOnPath(e.path, isSecret)
          && (e.left.Some? ==> !HoldsSecret(e.left.value, isSecret))
          && (e.right.Some? ==> !HoldsSecret(e.right.value, isSecret)))
  }

  ghost predicate AllDiscreet(es: seq<Entry>, inSecret: bool, isSecret: string -> bool)
  {
    forall i :: 0 <= i < |es| ==> Discreet(es[i], inSecret, isSecret)
  }

  lemma RecordDiscreet(path: Path, kind: Kind, left: Value, right: Value, inSecret: bool, secret: bool,
                       isSecret: string -> bool)
    requires |path| <= 1 && (inSecret ==> secret) && (SecretOnPath(path, isSecret) ==> secret)
    ensures Discreet(Record(path, kind, left, right, secret, isSecret), inSecret, isSecret)
  {
    hide HoldsSecret;
  }

  lemma DiscreetUnder(seg: Seg, es: seq<Entry>, inSecret: bool, deeper: bool, isSecret: string -> bool)
    requires AllDiscreet(es, deeper, isSecret) && (deeper <==> inSecret || (seg.Key? && isSecret(seg.key)))
    ensures AllDiscreet(Under(seg, es), inSecret, isSecret)
  {
    hide HoldsSecret;
    var up := Under(seg, es);
    forall i | 0 <= i < |up| ensures Discreet(up[i], inSecret, isSecret) {
      assert Discreet(es[i], deeper, isSecret);
      if SecretOnPath(up[i].path, isSecret) && !deeper {
        var j :| 0 <= j < |up[i].path| && up[i].path[j].Key? && isSecret(up[i].path[j].key);
        assert up[i].path[j] == es[i].path[j - 1];
      }
    }
  }

  lemma DiscreetAppend(a: seq<Entry>, b: seq<Entry>, inSecret: bool, isSecret: string -> bool)
    requires AllDiscreet(a, inSecret, isSecret) && AllDiscreet(b, inSecret, isSecret)
    ensures AllDiscreet(a + b, inSecret, isSecret)
  {
    hide Discreet;
  }

  /** An entry that is not secret has no secret key on its path and none anywhere in the values it carries. */
  lemma {:induction false} DiffKeepsSecrets(l: Value, r: Value, m: Mode, at: Path, inSecret: bool)
    ensures AllDiscreet(Compare(l, r, m, at, inSecret), inSecret, m.isSecret)
    decreases l, 1
  {
    hide CompareItems, CompareFields, AddedFields, Record, Discreet;
    if Primitive(l) || Primitive(r) {
      RecordDiscreet([], Changed, l, r, inSecret, inSecret, m.isSecret);
    } else if l.Arr? && r.Arr? {
      ItemsKeepSecrets(l.items, r.items, 0, m, at, inSecret);
    } else if l.Arr? || r.Arr? {
      RecordDiscreet([], Changed, l, r, inSecret, inSecret, m.isSecret);
    } else {
      FieldsKeepSecrets(l.fields, r.fields, m, at, inSecret);
      AddedKeepSecrets(l.fields, r.fields, m, at, inSecret);
      DiscreetAppend(CompareFields(l.fields, r.fields, m, at, inSecret),
                     AddedFields(l.fields, r.fields, m, at, inSecret), inSecret, m.isSecret);
    }
  }

  lemma {:induction false} ItemsKeepSecrets(ls: seq<Value>, rs: seq<Value>, i: nat, m: Mode, at: Path, inSecret: bool)
    ensures AllDiscreet(CompareItems(ls, rs, i, m, at, inSecret), inSecret, m.isSecret)
    decreases ls, |rs|
  {
    hide Compare, Record, Discreet;
    if ls == [] && rs == [] {
    } else if ls == [] {
      RecordDiscreet([Index(i)], Added, Undefined, rs[0], inSecret, inSecret, m.isSecret);
      ItemsKeepSecrets(ls, rs[1..], i + 1, m, at, inSecret);
      DiscreetAppend([Record([Index(i)], Added, Undefined, rs[0], inSecret, m.isSecret)],
                     CompareItems(ls, rs[1..], i + 1, m, at, inSecret), inSecret, m.isSecret);
    } else if rs == [] {
      RecordDiscreet([Index(i)], Removed, ls[0], Undefined, inSecret, inSecret, m.isSecret);
      ItemsKeepSecrets(ls[1..], rs, i + 1, m, at, inSecret);
      DiscreetAppend([Record([Index(i)], Removed, ls[0], Undefined, inSecret, m.isSecret)],
                     CompareItems(ls[1..], rs, i + 1, m, at, inSecret), inSecret, m.isSecret);
    } else {
      var here := Compare(ls[0], rs[0], m, at + [Index(i)], inSecret);
      DiffKeepsSecrets(ls[0], rs[0], m, at + [Index(i)], inSecret);
      DiscreetUnder(Index(i), here, inSecret, inSecret, m.isSecret);
      ItemsKeepSecrets(ls[1..], rs[1..], i + 1, m, at, inSecret);
      DiscreetAppend(Under(Index(i), here), CompareItems(ls[1..], rs[1..], i + 1, m, at, inSecret), inSecret,
                     m.isSecret);
    }
  }

  lemma {:induction false} FieldsKeepSecrets(ls: seq<Pair<Value>>, rs: seq<Pair<Value>>, m: Mode, at: Path,
                                             inSecret: bool)
    ensures AllDiscreet(CompareFields(ls, rs, m, at, inSecret), inSecret, m.isSecret)
    decreases ls, 0
  {
    hide Compare, Record, Discreet;
    if ls != [] {
      var f := ls[0];
      var secret := inSecret || m.isSecret(f.key);
      if !m.drops(f.key, at) {
        if Lookup(rs, f.key).None? {
          RecordDiscreet([Key(f.key)], Removed, f.val, Undefined, inSecret, secret, m.isSecret);
        } else {
          var x := Lookup(rs, f.key).value;
          DiffKeepsSecrets(f.val, x, m, at + [Key(f.key)], secret);
          DiscreetUnder(Key(f.key), Compare(f.val, x, m, at + [Key(f.key)], secret), inSecret, secret, m.isSecret);
        }
      }
      FieldsKeepSecrets(ls[1..], rs, m, at, inSecret);
      DiscreetAppend(CompareField(f, rs, m, at, inSecret), CompareFields(ls[1..], rs, m, at, inSecret), inSecret,
                     m.isSecret);
    }
  }

  lemma {:induction false} AddedKeepSecrets(ls: seq<Pair<Value>>, rs: seq<Pair<Value>>, m: Mode, at: Path,
                                            inSecret: bool)
    ensures AllDiscreet(AddedFields(ls, rs, m, at, inSecret), inSecret, m.isSecret)
  {
    hide Record, Discreet;
    if rs != [] {
      var f := rs[0];
      RecordDiscreet([Key(f.key)], Added, Undefined, f.val, inSecret, inSecret || m.isSecret(f.key), m.isSecret);
      AddedKeepSecrets(ls, rs[1..], m, at, inSecret);
      DiscreetAppend(AddedField(ls, f, m, at, inSecret), AddedFields(ls, rs[1..], m, at, inSecret), inSecret,
                     m.isSecret);
    }
  }

  /** holdsSecret looks everywhere: it is false exactly when no path into the value has a secret key. */
  lemma {:induction false} SecretSomewhere(v: Value, isSecret: string -> bool, path: Path)
    requires Present(v, path) && SecretOnPath(path, isSecret)
    ensures HoldsSecret(v, isSecret)
    decreases path
  {
    var i :| 0 <= i < |path| && path[i].Key? && isSecret(path[i].key);
    match path[0] {
      case Key(k) =>
        var x := Lookup(v.fields, k).value;
        var j :| 0 <= j < |v.fields| && v.fields[j].key == k && v.fields[j].val == x;
        if i > 0 {
          assert path[1..][i - 1] == path[i];
          SecretSomewhere(x, isSecret, path[1..]);
        }
        FieldSecret(v.fields, isSecret, j);
      case Index(n) =>
        assert path[1..][i - 1] == path[i];
        SecretSomewhere(v.items[n], isSecret, path[1..]);
        ItemSecret(v.items, isSecret, n);
    }
  }

  lemma {:induction false} FieldSecret(fields: seq<Pair<Value>>, isSecret: string -> bool, j: nat)
    requires j < |fields| && (isSecret(fields[j].key) || HoldsSecret(fields[j].val, isSecret))
    ensures SomeFieldSecret(fields, isSecret)
  {
    if j > 0 { FieldSecret(fields[1..], isSecret, j - 1); }
  }

  lemma {:induction false} ItemSecret(items: seq<Value>, isSecret: string -> bool, j: nat)
    requires j < |items| && HoldsSecret(items[j], isSecret)
    ensures SomeItemSecret(items, isSecret)
  {
    if j > 0 { ItemSecret(items[1..], isSecret, j - 1); }
  }

  lemma {:induction false} SecretFound(v: Value, isSecret: string -> bool) returns (path: Path)
    requires WellFormed(v) && HoldsSecret(v, isSecret)
    ensures Present(v, path) && SecretOnPath(path, isSecret)
    decreases v
  {
    hide SomeItemSecret, SomeFieldSecret;
    match v {
      case Arr(items) =>
        var j := SecretItem(items, isSecret);
        var rest := SecretFound(items[j], isSecret);
        path := [Index(j)] + rest;
        SecretDeeper(Index(j), rest, isSecret);
      case Obj(fields) =>
        var j := SecretField(fields, isSecret);
        LookupAt(fields, j);
        if isSecret(fields[j].key) {
          path := [Key(fields[j].key)];
        } else {
          var rest := SecretFound(fields[j].val, isSecret);
          path := [Key(fields[j].key)] + rest;
          SecretDeeper(Key(fields[j].key), rest, isSecret);
        }
    }
  }

  lemma SecretDeeper(seg: Seg, rest: Path, isSecret: string -> bool)
    requires SecretOnPath(rest, isSecret)
    ensures SecretOnPath([seg] + rest, isSecret) && ([seg] + rest)[1..] == rest
  {
    var i :| 0 <= i < |rest| && rest[i].Key? && isSecret(rest[i].key);
    assert ([seg] + rest)[i + 1] == rest[i];
  }

  lemma {:induction false} SecretItem(items: seq<Value>, isSecret: string -> bool) returns (j: nat)
    requires SomeItemSecret(items, isSecret)
    ensures j < |items| && HoldsSecret(items[j], isSecret)
  {
    if HoldsSecret(items[0], isSecret) {
      j := 0;
    } else {
      var k := SecretItem(items[1..], isSecret);
      j := k + 1;
    }
  }

  lemma {:induction false} SecretField(fields: seq<Pair<Value>>, isSecret: string -> bool) returns (j: nat)
    requires SomeFieldSecret(fields, isSecret)
    ensures j < |fields| && (isSecret(fields[j].key) || HoldsSecret(fields[j].val, isSecret))
  {
    if isSecret(fields[0].key) || HoldsSecret(fields[0].val, isSecret) {
      j := 0;
    } else {
      var k := SecretField(fields[1..], isSecret);
      j := k + 1;
    }
  }

  // ----- the recursion as it fills its list

  /** Entries found at a path. */
  function Placed(at: Path, es: seq<Entry>): (r: seq<Entry>)
    ensures |r| == |es| && forall i :: 0 <= i < |es| ==> r[i] == es[i].(path := at + es[i].path)
  {
    seq(|es|, i requires 0 <= i < |es| => es[i].(path := at + es[i].path))
  }

  lemma PlacedAppend(at: Path, a: seq<Entry>, b: seq<Entry>)
    ensures Placed(at, a + b) == Placed(at, a) + Placed(at, b)
  {
  }

  lemma PlacedUnder(at: Path, seg: Seg, es: seq<Entry>)
    ensures Placed(at, Under(seg, es)) == Placed(at + [seg], es)
  {
    forall i | 0 <= i < |es| ensures Placed(at, Under(seg, es))[i] == Placed(at + [seg], es)[i] {
      assert at + ([seg] + es[i].path) == at + [seg] + es[i].path;
    }
  }

  lemma PlacedOne(at: Path, path: Path, kind: Kind, left: Value, right: Value, secret: bool, isSecret: string -> bool)
    ensures Placed(at, [Record(path, kind, left, right, secret, isSecret)])
            == [Record(at + path, kind, left, right, secret, isSecret)]
  {
    hide HoldsSecret;
  }

  method CompareRecursive(l: Value, r: Value, m: Mode, at: Path, inSecret: bool, entries: seq<Entry>)
    returns (out: seq<Entry>)
    ensures out == entries + Placed(at, Compare(l, r, m, at, inSecret))
    decreases l, 1
  {
    hide CompareItems, CompareFields, AddedFields, Record, Placed;
    if Primitive(l) || Primitive(r) {
      PlacedOne(at, [], Changed, l, r, inSecret, m.isSecret);
      PlacedNone(at);
      assert at + [] == at;
      if l == r && !l.NaN? { return entries + []; }
      return entries + [Record(at, Changed, l, r, inSecret, m.isSecret)];
    }
    if l.Arr? || r.Arr? {
      if !(l.Arr? && r.Arr?) {
        PlacedOne(at, [], Changed, l, r, inSecret, m.isSecret);
        assert at + [] == at;
        return entries + [Record(at, Changed, l, r, inSecret, m.isSecret)];
      }
      out := CompareArrays(l.items, r.items, m, at, inSecret, entries);
      return;
    }
    out := CompareLeft(l.fields, r.fields, m, at, inSecret, entries);
    out := CompareRight(l.fields, r.fields, m, at, inSecret, out);
    PlacedAppend(at, CompareFields(l.fields, r.fields, m, at, inSecret),
                 AddedFields(l.fields, r.fields, m, at, inSecret));
  }

  lemma PlacedNone(at: Path)
    ensures Placed(at, []) == []
  {
  }

  function From<T>(s: seq<T>, i: nat): (r: seq<T>)
  {
    if i <= |s| then s[i..] else []
  }

  /** What index `i` of two arrays comes to. */
  function CompareIndex(ls: seq<Value>, rs: seq<Value>, i: nat, m: Mode, at: Path, inSecret: bool): (es: seq<Entry>)
    requires i < |ls| || i < |rs|
  {
    if i >= |ls| then [Record([Index(i)], Added, Undefined, rs[i], inSecret, m.isSecret)]
    else if i >= |rs| then [Record([Index(i)], Removed, ls[i], Undefined, inSecret, m.isSecret)]
    else Under(Index(i), Compare(ls[i], rs[i], m, at + [Index(i)], inSecret))
  }

  lemma CompareItemsStep(ls: seq<Value>, rs: seq<Value>, i: nat, m: Mode, at: Path, inSecret: bool)
    requires i < |ls| || i < |rs|
    ensures CompareItems(From(ls, i), From(rs, i), i, m, at, inSecret)
            == CompareIndex(ls, rs, i, m, at, inSecret)
              + CompareItems(From(ls, i + 1), From(rs, i + 1), i + 1, m, at, inSecret)
  {
    hide Compare, Record;
    if i < |ls| { assert From(ls, i)[0] == ls[i] && From(ls, i)[1..] == From(ls, i + 1); }
    if i < |rs| { assert From(rs, i)[0] == rs[i] && From(rs, i)[1..] == From(rs, i + 1); }
  }

  method CompareAtIndex(ls: seq<Value>, rs: seq<Value>, i: nat, m: Mode, at: Path, inSecret: bool, entries: seq<Entry>)
    returns (out: seq<Entry>)
    requires i < |ls| || i < |rs|
    ensures out == entries + Placed(at, CompareIndex(ls, rs, i, m, at, inSecret))
    decreases ls, 0
  {
    hide Compare, Record, Placed;
    if i >= |ls| {
      PlacedOne(at, [Index(i)], Added, Undefined, rs[i], inSecret, m.isSecret);
      out := entries + [Record(at + [Index(i)], Added, Undefined, rs[i], inSecret, m.isSecret)];
    } else if i >= |rs| {
      PlacedOne(at, [Index(i)], Removed, ls[i], Undefined, inSecret, m.isSecret);
      out := entries + [Record(at + [Index(i)], Removed, ls[i], Undefined, inSecret, m.isSecret)];
    } else {
      PlacedUnder(at, Index(i), Compare(ls[i], rs[i], m, at + [Index(i)], inSecret));
      out := CompareRecursive(ls[i], rs[i], m, at + [Index(i)], inSecret, entries);
    }
  }

  method CompareArrays(ls: seq<Value>, rs: seq<Value>, m: Mode, at: Path, inSecret: bool, entries: seq<Entry>)
    returns (out: seq<Entry>)
    ensures out == entries + Placed(at, CompareItems(ls, rs, 0, m, at, inSecret))
    decreases ls, 1
  {
    hide Compare, CompareItems, CompareIndex, Placed;
    out := entries;
    var n := if |ls| > |rs| then |ls| else |rs|;
    assert From(ls, 0) == ls && From(rs, 0) == rs;
    for i := 0 to n
      invariant out + Placed(at, CompareItems(From(ls, i), From(rs, i), i, m, at, inSecret))
                == entries + Placed(at, CompareItems(ls, rs, 0, m, at, inSecret))
    {
      CompareItemsStep(ls, rs, i, m, at, inSecret);
      PlacedAppend(at, CompareIndex(ls, rs, i, m, at, inSecret),
                   CompareItems(From(ls, i + 1), From(rs, i + 1), i + 1, m, at, inSecret));
      out := CompareAtIndex(ls, rs, i, m, at, inSecret, out);
    }
    NoItems(ls, rs, n, m, at, inSecret);
  }

  lemma NoItems(ls: seq<Value>, rs: seq<Value>, n: nat, m: Mode, at: Path, inSecret: bool)
    requires n >= |ls| && n >= |rs|
    ensures Placed(at, CompareItems(From(ls, n), From(rs, n), n, m, at, inSecret)) == []
  {
    assert From(ls, n) == [] && From(rs, n) == [];
  }

  method CompareMember(f: Pair<Value>, rs: seq<Pair<Value>>, m: Mode, at: Path, inSecret: bool, entries: seq<Entry>)
    returns (out: seq<Entry>)
    ensures out == entries + Placed(at, CompareField(f, rs, m, at, inSecret))
    decreases f, 2
  {
    hide Compare, Record, Placed;
    PlacedNone(at);
    if m.drops(f.key, at) { return entries + []; }
    var secret := inSecret || m.isSecret(f.key);
    var x := Lookup(rs, f.key);
    if x.None? {
      PlacedOne(at, [Key(f.key)], Removed, f.val, Undefined, secret, m.isSecret);
      out := entries + [Record(at + [Key(f.key)], Removed, f.val, Undefined, secret, m.isSecret)];
    } else {
      PlacedUnder(at, Key(f.key), Compare(f.val, x.value, m, at + [Key(f.key)], secret));
      out := CompareRecursive(f.val, x.value, m, at + [Key(f.key)], secret, entries);
    }
  }

  method CompareLeft(ls: seq<Pair<Value>>, rs: seq<Pair<Value>>, m: Mode, at: Path, inSecret: bool, entries: seq<Entry>)
    returns (out: seq<Entry>)
    ensures out == entries + Placed(at, CompareFields(ls, rs, m, at, inSecret))
    decreases ls, 0
  {
    hide CompareField, Placed;
    out := entries;
    assert ls[0..] == ls;
    for i := 0 to |ls|
      invariant out + Placed(at, CompareFields(ls[i..], rs, m, at, inSecret))
                == entries + Placed(at, CompareFields(ls, rs, m, at, inSecret))
    {
      assert ls[i..][0] == ls[i] && ls[i..][1..] == ls[i + 1..];
      PlacedAppend(at, CompareField(ls[i], rs, m, at, inSecret), CompareFields(ls[i + 1..], rs, m, at, inSecret));
      out := CompareMember(ls[i], rs, m, at, inSecret, out);
    }
    assert ls[|ls|..] == [];
    PlacedNone(at);
  }

  method CompareRight(ls: seq<Pair<Value>>, rs: seq<Pair<Value>>, m: Mode, at: Path, inSecret: bool,
                      entries: seq<Entry>) returns (out: seq<Entry>)
    ensures out == entries + Placed(at, AddedFields(ls, rs, m, at, inSecret))
  {
    hide AddedField, Placed, Record, Lookup;
    out := entries;
    assert rs[0..] == rs;
    for i := 0 to |rs|
      invariant out + Placed(at, AddedFields(ls, rs[i..], m, at, inSecret))
                == entries + Placed(at, AddedFields(ls, rs, m, at, inSecret))
    {
      var f := rs[i];
      assert rs[i..][0] == f && rs[i..][1..] == rs[i + 1..];
      PlacedAppend(at, AddedField(ls, f, m, at, inSecret), AddedFields(ls, rs[i + 1..], m, at, inSecret));
      PlacedAdded(at, ls, f, m, inSecret);
      if !m.drops(f.key, at) && Lookup(ls, f.key).None? {
        out := out + [Record(at + [Key(f.key)], Added, Undefined, f.val, inSecret || m.isSecret(f.key), m.isSecret)];
      } else {
        out := out + [];
      }
    }
    assert rs[|rs|..] == [];
    PlacedNone(at);
  }

  lemma PlacedAdded(at: Path, ls: seq<Pair<Value>>, f: Pair<Value>, m: Mode, inSecret: bool)
    ensures Placed(at, AddedField(ls, f, m, at, inSecret))
            == if m.drops(f.key, at) || Lookup(ls, f.key).Some? then []
               else [Record(at + [Key(f.key)], Added, Undefined, f.val, inSecret || m.isSecret(f.key), m.isSecret)]
  {
    hide Placed, Record, Lookup;
    PlacedNone(at);
    PlacedOne(at, [Key(f.key)], Added, Undefined, f.val, inSecret || m.isSecret(f.key), m.isSecret);
  }

  // ----- which keys are not compared

  /** The text of a path, as the source builds it. */
  function Text(path: Path): (t: string)
  {
    if path == [] then "$"
    else
      var n := |path| - 1;
      var above := Text(path[..n]);
      match path[n]
      case Key(k) => if above == "$" then k else above + "." + k
      case Index(i) => above + "[" + NatText(i) + "]"
  }

  /** Without options, the names of the first hash versions are not compared at any depth. */
  function Frozen(exclusion: string -> bool): (d: Drops)
  {
    (key: string, at: Path) => exclusion(key)
  }

  /** With `topLevel`, the code leaves out these keys wherever the path reads `$`. */
  function TopLevel(names: set<string>): (d: Drops)
  {
    (key: string, at: Path) => Text(at) == "$" && key in names
  }

  /** As documented: only at the top level. */
  function OnlyAtTop(names: set<string>): (d: Drops)
  {
    (key: string, at: Path) => at == [] && key in names
  }

  /** The path of `n` keys `$`. */
  function Dollars(n: nat): (p: Path)
    ensures |p| == n && forall i :: 0 <= i < n ==> p[i] == Key("$")
  {
    seq(n, _ => Key("$"))
  }

  lemma DollarsSnoc(n: nat)
    ensures Dollars(n) + [Key("$")] == Dollars(n + 1)
  {
  }

  /** The text of a path is `$` exactly for the root and for paths of keys `$` alone. */
  lemma {:induction false} OnlyDollarsReadDollar(at: Path)
    ensures Text(at) == "$" <==> at == Dollars(|at|)
    decreases |at|
  {
    hide NatText;
    if at == [] {
      assert at == Dollars(0);
    } else {
      var n := |at| - 1;
      OnlyDollarsReadDollar(at[..n]);
      assert at == at[..n] + [at[n]];
      assert at == Dollars(n + 1) <==> at[..n] == Dollars(n) && at[n] == Key("$") by { DollarsSplit(at, n); }
      var above := Text(at[..n]);
      if at[n].Key? {
        if above != "$" && |above + "." + at[n].key| == 1 { assert (above + "." + at[n].key)[0] == '.'; }
      } else {
        assert |Text(at)| > 1;
      }
    }
  }

  lemma DollarsSplit(at: Path, n: nat)
    requires |at| == n + 1
    ensures at == Dollars(n + 1) <==> at[..n] == Dollars(n) && at[n] == Key("$")
  {
    DollarsSnoc(n);
    assert at == at[..n] + [at[n]];
    if at == Dollars(n + 1) { assert at[..n] == Dollars(n); }
  }

  /** A path off the keys `$`, and everything below it, is compared in full. */
  ghost predicate OffDollars(at: Path)
  {
    exists i :: 0 <= i < |at| && at[i] != Key("$")
  }

  lemma OffDollarsSays(at: Path, seg: Seg)
    ensures OffDollars(at) ==> Text(at) != "$" && at != [] && OffDollars(at + [seg])
    ensures seg != Key("$") ==> OffDollars(at + [seg])
  {
    OnlyDollarsReadDollar(at);
    if OffDollars(at) {
      var i :| 0 <= i < |at| && at[i] != Key("$");
      assert (at + [seg])[i] == at[i];
    }
    if seg != Key("$") { assert (at + [seg])[|at|] == seg; }
  }

  lemma {:induction false} SameOff(v: Value, names: set<string>, at: Path)
    requires OffDollars(at)
    ensures Kept(v, TopLevel(names), at) == Kept(v, OnlyAtTop(names), at)
    decreases v
  {
    hide Text, OffDollars;
    match v
    case Arr(items) => SameItemsOff(items, 0, names, at);
    case Obj(fields) => SameFieldsOff(fields, names, at);
    case _ =>
  }

  lemma {:induction false} SameItemsOff(items: seq<Value>, i: nat, names: set<string>, at: Path)
    ensures KeptItems(items, i, TopLevel(names), at) == KeptItems(items, i, OnlyAtTop(names), at)
    decreases items
  {
    hide Text, Kept, OffDollars;
    if items != [] {
      OffDollarsSays(at, Index(i));
      SameOff(items[0], names, at + [Index(i)]);
      SameItemsOff(items[1..], i + 1, names, at);
    }
  }

  lemma {:induction false} SameFieldsOff(fields: seq<Pair<Value>>, names: set<string>, at: Path)
    requires OffDollars(at)
    ensures KeptFields(fields, TopLevel(names), at) == KeptFields(fields, OnlyAtTop(names), at)
    decreases fields
  {
    hide Text, Kept, OffDollars;
    if fields != [] {
      OffDollarsSays(at, Key(fields[0].key));
      SameOff(fields[0].val, names, at + [Key(fields[0].key)]);
      SameFieldsOff(fields[1..], names, at);
    }
  }

  ghost predicate HasNamed(v: Value, names: set<string>)
  {
    v.Obj? && exists k :: k in names && Lookup(v.fields, k).Some?
  }

  /** The value, or what keys `$` lead to from it, is an object with a member the names leave out. */
  ghost predicate Hides(v: Value, names: set<string>)
    decreases v
  {
    || HasNamed(v, names)
    || (v.Obj? && exists i :: 0 <= i < |v.fields| && v.fields[i].key == "$" && Hides(v.fields[i].val, names))
  }

  lemma DropsAt(names: set<string>, n: nat, k: string)
    requires n > 0
    ensures (TopLevel(names)(k, Dollars(n)) <==> k in names) && !OnlyAtTop(names)(k, Dollars(n))
  {
    OnlyDollarsReadDollar(Dollars(n));
  }

  /** One member of an object at a path of keys `$`. */
  lemma DollarMember(v: Value, names: set<string>, n: nat, k: string)
    requires v.Obj? && n > 0
    ensures var a, b :=
              KeptFields(v.fields, TopLevel(names), Dollars(n)), KeptFields(v.fields, OnlyAtTop(names), Dollars(n));
            && (k in b <==> Lookup(v.fields, k).Some?) && (k in a <==> Lookup(v.fields, k).Some? && k !in names)
            && (k in a ==> a[k] == Kept(Lookup(v.fields, k).value, TopLevel(names), Dollars(n) + [Key(k)]))
            && (k in b ==> b[k] == Kept(Lookup(v.fields, k).value, OnlyAtTop(names), Dollars(n) + [Key(k)]))
            && (k in a && k != "$" ==> a[k] == b[k])
  {
    hide Kept, KeptFields, Text, TopLevel, OnlyAtTop, Lookup;
    KeptFieldsLookup(v.fields, TopLevel(names), Dollars(n), k);
    KeptFieldsLookup(v.fields, OnlyAtTop(names), Dollars(n), k);
    DropsAt(names, n, k);
    if Lookup(v.fields, k).Some? && k != "$" {
      OffDollarsSays(Dollars(n), Key(k));
      SameOff(Lookup(v.fields, k).value, names, Dollars(n) + [Key(k)]);
    }
  }

  lemma {:induction false} DollarExact(v: Value, names: set<string>, n: nat)
    requires WellFormed(v) && n > 0 && "$" !in names
    ensures Kept(v, TopLevel(names), Dollars(n)) == Kept(v, OnlyAtTop(names), Dollars(n)) <==> !Hides(v, names)
    decreases v
  {
    hide KeptFields, TopLevel, OnlyAtTop, Text, Lookup, KeptItems;
    if v.Obj? {
      var a, b := KeptFields(v.fields, TopLevel(names), Dollars(n)), KeptFields(v.fields, OnlyAtTop(names), Dollars(n));
      forall k ensures k in a <==> Lookup(v.fields, k).Some? && k !in names
        ensures k in b <==> Lookup(v.fields, k).Some?
               ensures k in a && k != "$" ==> a[k] == b[k]
      {
        DollarMember(v, names, n, k);
      }
      DollarMember(v, names, n, "$");
      DollarsSnoc(n);
      if Lookup(v.fields, "$").Some? {
        var i :| 0 <= i < |v.fields| && v.fields[i].key == "$" && v.fields[i].val == Lookup(v.fields, "$").value;
        DollarExact(v.fields[i].val, names, n + 1);
        forall j | 0 <= j < |v.fields| && v.fields[j].key == "$"
          ensures v.fields[j].val == v.fields[i].val { LookupAt(v.fields, j); }
      }
      if a == b {
        forall k | k in names ensures Lookup(v.fields, k).None? { assert k in a <==> k in b; }
      } else if !HasNamed(v, names) {
        assert a.Keys == b.Keys;
        var k :| k in a && a[k] != b[k];
      }
    } else if v.Arr? {
      SameItemsOff(v.items, 0, names, Dollars(n));
    }
  }

  /** Some path of one or more keys `$` leads to an object with a member the names leave out. */
  ghost predicate NamedBelowDollars(v: Value, names: set<string>)
  {
    exists n: nat :: n > 0 && Present(v, Dollars(n)) && HasNamed(At(v, Dollars(n)), names)
  }

  lemma DollarsCons(n: nat)
    requires n > 0
    ensures Dollars(n)[0] == Key("$") && Dollars(n)[1..] == Dollars(n - 1)
  {
  }

  lemma {:induction false} HidesDownDollars(v: Value, names: set<string>) returns (n: nat)
    requires WellFormed(v) && Hides(v, names)
    ensures Present(v, Dollars(n)) && HasNamed(At(v, Dollars(n)), names)
    decreases v
  {
    hide HasNamed;
    if HasNamed(v, names) {
      n := 0;
      assert Dollars(0) == [];
    } else {
      var i :| 0 <= i < |v.fields| && v.fields[i].key == "$" && Hides(v.fields[i].val, names);
      LookupAt(v.fields, i);
      var m := HidesDownDollars(v.fields[i].val, names);
      n := m + 1;
      DollarsCons(n);
    }
  }

  lemma {:induction false} DollarsDownHides(v: Value, names: set<string>, n: nat)
    requires Present(v, Dollars(n)) && HasNamed(At(v, Dollars(n)), names)
    ensures Hides(v, names)
    decreases n
  {
    hide HasNamed;
    if n == 0 {
      assert Dollars(0) == [];
    } else {
      DollarsCons(n);
      var x := Lookup(v.fields, "$").value;
      DollarsDownHides(x, names, n - 1);
      var i :| 0 <= i < |v.fields| && v.fields[i].key == "$" && v.fields[i].val == x;
    }
  }

  lemma DollarsBelowTop(v: Value, names: set<string>)
    requires WellFormed(v)
    ensures NamedBelowDollars(v, names) <==>
              v.Obj? && Lookup(v.fields, "$").Some? && Hides(Lookup(v.fields, "$").value, names)
  {
    hide HasNamed, Hides;
    if NamedBelowDollars(v, names) {
      var n: nat :| n > 0 && Present(v, Dollars(n)) && HasNamed(At(v, Dollars(n)), names);
      DollarsCons(n);
      DollarsDownHides(Lookup(v.fields, "$").value, names, n - 1);
    }
    if v.Obj? && Lookup(v.fields, "$").Some? && Hides(Lookup(v.fields, "$").value, names) {
      var m := HidesDownDollars(Lookup(v.fields, "$").value, names);
      DollarsCons(m + 1);
      var n := m + 1;
      assert Present(v, Dollars(n)) && HasNamed(At(v, Dollars(n)), names);
    }
  }

  lemma TopMember(v: Value, names: set<string>, k: string)
    requires v.Obj?
    ensures var a, b := KeptFields(v.fields, TopLevel(names), []), KeptFields(v.fields, OnlyAtTop(names), []);
            && (k in a <==> k in b) && (k in a <==> Lookup(v.fields, k).Some? && k !in names)
            && (k in a && k != "$" ==> a[k] == b[k])
            && (k in a && k == "$" ==> a[k] == Kept(Lookup(v.fields, k).value, TopLevel(names), Dollars(1))
                                       && b[k] == Kept(Lookup(v.fields, k).value, OnlyAtTop(names), Dollars(1)))
  {
    hide Kept, KeptFields, Lookup;
    KeptFieldsLookup(v.fields, TopLevel(names), [], k);
    KeptFieldsLookup(v.fields, OnlyAtTop(names), [], k);
    assert [] + [Key("$")] == Dollars(1);
    if Lookup(v.fields, k).Some? && k != "$" {
      OffDollarsSays([], Key(k));
      SameOff(Lookup(v.fields, k).value, names, [] + [Key(k)]);
    }
  }

  /**
   * What the code leaves out is what is documented, the named top-level keys, exactly when `$` is itself one of them or
   * no path of keys `$`, however long, leads to an object with one of them.
   */
  lemma TopLevelExactly(v: Value, names: set<string>)
    requires WellFormed(v)
    ensures Kept(v, TopLevel(names), []) == Kept(v, OnlyAtTop(names), []) <==>
              "$" in names || !NamedBelowDollars(v, names)
  {
    hide KeptFields, KeptItems, TopLevel, OnlyAtTop, Text, Lookup, Hides, NamedBelowDollars;
    DollarsBelowTop(v, names);
    if v.Obj? {
      var a, b := KeptFields(v.fields, TopLevel(names), []), KeptFields(v.fields, OnlyAtTop(names), []);
      forall k ensures (k in a <==> k in b) && (k in a && k != "$" ==> a[k] == b[k]) { TopMember(v, names, k); }
      TopMember(v, names, "$");
      if Lookup(v.fields, "$").Some? && "$" !in names {
        DollarWellFormed(v);
        DollarExact(Lookup(v.fields, "$").value, names, 1);
      }
      assert a.Keys == b.Keys;
      if a != b { var k :| k in a && a[k] != b[k]; }
    } else if v.Arr? {
      SameItemsOff(v.items, 0, names, []);
    }
  }

  lemma DollarWellFormed(v: Value)
    requires v.Obj? && WellFormed(v) && Lookup(v.fields, "$").Some?
    ensures WellFormed(Lookup(v.fields, "$").value)
  {
  }

  /** Then the code's diff is empty exactly when the documented one is. */
  lemma TopLevelDiffsAgree(l: Value, r: Value, names: set<string>, isSecret: string -> bool)
    requires WellFormed(l) && WellFormed(r)
             && ("$" in names || (!NamedBelowDollars(l, names) && !NamedBelowDollars(r, names)))
    ensures Compare(l, r, Mode(TopLevel(names), isSecret), [], false) == [] <==>
              Compare(l, r, Mode(OnlyAtTop(names), isSecret), [], false) == []
  {
    hide Compare, Kept, NaNFree, NamedBelowDollars;
    TopLevelExactly(l, names);
    TopLevelExactly(r, names);
    IdenticalExactly(l, r, Mode(TopLevel(names), isSecret), [], false);
    IdenticalExactly(l, r, Mode(OnlyAtTop(names), isSecret), [], false);
  }

  /** A member `a` below `n` keys `$`. */
  function Nested(n: nat, x: Value): (v: Value)
  {
    if n == 0 then Obj([Pair("a", x)]) else Obj([Pair("$", Nested(n - 1, x))])
  }

  lemma OneField(k: string, x: Value, d: Drops, at: Path)
    ensures KeptFields([Pair(k, x)], d, at) == if d(k, at) then map[] else map[k := Kept(x, d, at + [Key(k)])]
  {
    hide Kept;
    assert [Pair(k, x)][1..] == [];
  }

  lemma {:induction false} NestedHidden(n: nat, x: Value, y: Value, m: nat)
    ensures Kept(Nested(n, x), TopLevel({"a"}), Dollars(m)) == Kept(Nested(n, y), TopLevel({"a"}), Dollars(m))
    ensures NaNFree(Kept(Nested(n, x), TopLevel({"a"}), Dollars(m)))
    decreases n
  {
    hide KeptFields, Text;
    OnlyDollarsReadDollar(Dollars(m));
    var d := TopLevel({"a"});
    if n == 0 {
      OneField("a", x, d, Dollars(m));
      OneField("a", y, d, Dollars(m));
    } else {
      OneField("$", Nested(n - 1, x), d, Dollars(m));
      OneField("$", Nested(n - 1, y), d, Dollars(m));
      DollarsSnoc(m);
      NestedHidden(n - 1, x, y, m + 1);
    }
  }

  lemma {:induction false} NestedSeen(n: nat, x: Value, y: Value, m: nat)
    requires Primitive(x) && Primitive(y) && x != y && n + m > 0
    ensures Kept(Nested(n, x), OnlyAtTop({"a"}), Dollars(m)) != Kept(Nested(n, y), OnlyAtTop({"a"}), Dollars(m))
    decreases n
  {
    hide KeptFields;
    var d := OnlyAtTop({"a"});
    var k, p, q := if n == 0 then "a" else "$", if n == 0 then x else Nested(n - 1, x), if n == 0 then y
      else Nested(n - 1, y);
    OneField(k, p, d, Dollars(m));
    OneField(k, q, d, Dollars(m));
    DollarsSnoc(m);
    if n > 0 { NestedSeen(n - 1, x, y, m + 1); }
    assert KeptFields([Pair(k, p)], d, Dollars(m))[k] != KeptFields([Pair(k, q)], d, Dollars(m))[k];
  }

  lemma {:induction false} NestedWellFormed(n: nat, x: Value)
    requires WellFormed(x)
    ensures WellFormed(Nested(n, x))
  {
    if n > 0 { NestedWellFormed(n - 1, x); }
  }

  /** Such a difference goes unseen, at any depth of keys `$`: the documented rule would show it. */
  lemma DollarKeyHides(n: nat, x: Value, y: Value, isSecret: string -> bool)
    requires n > 0 && Primitive(x) && Primitive(y) && x != y && WellFormed(x) && WellFormed(y)
    ensures Compare(Nested(n, x), Nested(n, y), Mode(TopLevel({"a"}), isSecret), [], false) == []
    ensures Compare(Nested(n, x), Nested(n, y), Mode(OnlyAtTop({"a"}), isSecret), [], false) != []
  {
    hide Compare, Kept, Nested, NaNFree;
    NestedWellFormed(n, x);
    NestedWellFormed(n, y);
    assert Dollars(0) == [];
    NestedHidden(n, x, y, 0);
    NestedSeen(n, x, y, 0);
    IdenticalExactly(Nested(n, x), Nested(n, y), Mode(TopLevel({"a"}), isSecret), [], false);
    IdenticalExactly(Nested(n, x), Nested(n, y), Mode(OnlyAtTop({"a"}), isSecret), [], false);
  }

  datatype ArtifactDiff = ArtifactDiff(identical: bool, entries: seq<Entry>)

  /** diffArtifacts. */
  method DiffArtifacts(left: Value, right: Value, m: Mode) returns (d: ArtifactDiff)
    requires WellFormed(left) && WellFormed(right)
    ensures d.entries == Compare(left, right, m, [], false)
    ensures d.identical <==> Kept(left, m.drops, []) == Kept(right, m.drops, []) && NaNFree(Kept(left, m.drops, []))
    ensures NoSecret(d.entries) ==>
              ApplyAll(Kept(left, m.drops, []), d.entries, m.drops, []) == Kept(right, m.drops, [])
    ensures AllDiscreet(d.entries, false, m.isSecret)
  {
    hide Compare, Kept, NaNFree, Placed, ApplyAll, AllDiscreet;
    var entries := CompareRecursive(left, right, m, [], false, []);
    PlacedAtRoot(Compare(left, right, m, [], false));
    IdenticalExactly(left, right, m, [], false);
    DiffKeepsSecrets(left, right, m, [], false);
    if NoSecret(entries) { DiffPatches(left, right, m, [], false); }
    d := ArtifactDiff(entries == [], entries);
  }

  lemma PlacedAtRoot(es: seq<Entry>)
    ensures [] + Placed([], es) == es
  {
    forall i | 0 <= i < |es| ensures Placed([], es)[i] == es[i] {
      assert [] + es[i].path == es[i].path;
    }
  }
}
