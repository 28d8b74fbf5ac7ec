/**
 * The comparison of entry arguments with declared states: equality up to the order in which objects list their members.
 */
module SameValues {
  import opened Common
  import opened Covenant

  /** Objects list each key once, at every depth. */
  ghost predicate WellKeyed(v: Sil)
  {
    match v
    case Array(items) => forall i :: 0 <= i < |items| ==> WellKeyed(items[i])
    case Object(fields) => DistinctKeys(fields) && forall i :: 0 <= i < |fields| ==> WellKeyed(fields[i].val)
    case _ => true
  }

  /** Equal, with the members of objects in any order. */
  ghost predicate Alike(a: Sil, b: Sil)
    decreases a
  {
    if a.Array? && b.Array? then
      |a.items| == |b.items| && forall i :: 0 <= i < |a.items| ==> Alike(a.items[i], b.items[i])
    else if a.Object? && b.Object? then
      && (forall i :: 0 <= i < |a.fields| ==>
            Lookup(b.fields, a.fields[i].key).Some? && Alike(a.fields[i].val, Lookup(b.fields, a.fields[i].key).value))
      && (forall j :: 0 <= j < |b.fields| ==> Lookup(a.fields, b.fields[j].key).Some?)
    else a == b && !a.Array? && !a.Object?
  }

  lemma {:induction false} CanonicalItemsAt(items: seq<Sil>, i: nat)
    requires i < |items|
    ensures CanonicalItems(items)[i] == Canonical(items[i])
  {
    if i > 0 { CanonicalItemsAt(items[1..], i - 1); }
  }

  lemma {:induction false} CanonicalFieldsAt(fields: seq<Pair<Sil>>, i: nat)
    requires i < |fields|
    ensures CanonicalFields(fields)[i] == Pair(fields[i].key, Canonical(fields[i].val))
  {
    if i > 0 { CanonicalFieldsAt(fields[1..], i - 1); }
  }

  lemma {:induction false} CanonicalLookup(fields: seq<Pair<Sil>>, k: string)
    ensures Lookup(CanonicalFields(fields), k)
            == match Lookup(fields, k) case Some(v) => Some(Canonical(v)) case None => None
  {
    hide Canonical;
    if fields != [] {
      CanonicalLookup(fields[1..], k);
      assert CanonicalFields(fields)[1..] == CanonicalFields(fields[1..]);
    }
  }

  lemma CanonicalDistinct(fields: seq<Pair<Sil>>)
    requires DistinctKeys(fields)
    ensures DistinctKeys(CanonicalFields(fields))
  {
    forall i, j | 0 <= i < j < |fields| ensures CanonicalFields(fields)[i].key != CanonicalFields(fields)[j].key {
      CanonicalFieldsAt(fields, i);
      CanonicalFieldsAt(fields, j);
    }
  }

  /** sameValue is equality up to the order of members. */
  lemma {:induction false} SameValueExact(a: Sil, b: Sil)
    requires WellKeyed(a) && WellKeyed(b)
    ensures SameValue(a, b) <==> Alike(a, b)
    decreases a, 3
  {
    hide SortByKey, CanonicalFields, CanonicalItems, Lookup;
    if a.Array? && b.Array? {
      forall i | 0 <= i < |a.items| && i < |b.items|
        ensures CanonicalItems(a.items)[i] == CanonicalItems(b.items)[i] <==> Alike(a.items[i], b.items[i]) {
        CanonicalItemsAt(a.items, i);
        CanonicalItemsAt(b.items, i);
        SameValueExact(a.items[i], b.items[i]);
      }
      if Alike(a, b) { assert CanonicalItems(a.items) == CanonicalItems(b.items); }
      if SameValue(a, b) { assert |CanonicalItems(a.items)| == |CanonicalItems(b.items)|; }
    } else if a.Object? && b.Object? {
      SameObjects(a, b);
    }
  }

  lemma {:induction false} SameObjects(a: Sil, b: Sil)
    requires a.Object? && b.Object? && WellKeyed(a) && WellKeyed(b)
    ensures SameValue(a, b) <==> Alike(a, b)
    decreases a, 2
  {
    hide SortByKey, CanonicalFields, Lookup, Alike;
    var ca, cb := CanonicalFields(a.fields), CanonicalFields(b.fields);
    CanonicalDistinct(a.fields);
    CanonicalDistinct(b.fields);
    SortedEqual(ca, cb);
    assert SameValue(a, b) <==> SameLookups(ca, cb);
    if SameLookups(ca, cb) { LookupsAlike(a, b); }
    if Alike(a, b) { AlikeLookups(a, b); }
  }

  lemma {:induction false} LookupsAlike(a: Sil, b: Sil)
    requires a.Object? && b.Object? && WellKeyed(a) && WellKeyed(b)
             && SameLookups(CanonicalFields(a.fields), CanonicalFields(b.fields))
    ensures Alike(a, b)
    decreases a, 1
  {
    hide CanonicalFields, Canonical;
    forall i | 0 <= i < |a.fields|
      ensures Lookup(b.fields, a.fields[i].key).Some?
              && Alike(a.fields[i].val, Lookup(b.fields, a.fields[i].key).value) {
      var k := a.fields[i].key;
      LookupAt(a.fields, i);
      CanonicalLookup(a.fields, k);
      CanonicalLookup(b.fields, k);
      assert Lookup(CanonicalFields(a.fields), k) == Lookup(CanonicalFields(b.fields), k);
      SameValueExact(a.fields[i].val, Lookup(b.fields, k).value);
    }
    forall j | 0 <= j < |b.fields| ensures Lookup(a.fields, b.fields[j].key).Some? {
      var k := b.fields[j].key;
      LookupAt(b.fields, j);
      CanonicalLookup(a.fields, k);
      CanonicalLookup(b.fields, k);
      assert Lookup(CanonicalFields(a.fields), k) == Lookup(CanonicalFields(b.fields), k);
    }
  }

  lemma {:induction false} AlikeLookups(a: Sil, b: Sil)
    requires a.Object? && b.Object? && WellKeyed(a) && WellKeyed(b) && Alike(a, b)
    ensures SameLookups(CanonicalFields(a.fields), CanonicalFields(b.fields))
    decreases a, 1
  {
    hide CanonicalFields, Canonical;
    forall k ensures Lookup(CanonicalFields(a.fields), k) == Lookup(CanonicalFields(b.fields), k) {
      CanonicalLookup(a.fields, k);
      CanonicalLookup(b.fields, k);
      if Lookup(a.fields, k).Some? {
        var i :| 0 <= i < |a.fields| && a.fields[i].key == k && a.fields[i].val == Lookup(a.fields, k).value;
        SameValueExact(a.fields[i].val, Lookup(b.fields, k).value);
      }
    }
  }
}
