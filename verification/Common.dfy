/** Options, keyed pairs and the sorting of keyed pairs that the artifact modules share. */
module Common {

  datatype Option<+T> = None | Some(value: T)

  datatype Result<+T, +E> = Ok(value: T) | Err(error: E)

  /** A key with what it names: an object member, or a member's printed or normalised form. */
  datatype Pair<T> = Pair(key: string, val: T)

  /** Where a character falls in UTF-16 code unit order: surrogate pairs sort between U+D7FF and U+E000. */
  function CharRank(c: char): (r: int)
  {
    if 0xE000 <= c as int <= 0xFFFF then c as int + 0x110000 else c as int
  }

  /** The order of `a < b` on JavaScript strings (deterministicCompare). */
  predicate KeyLess(a: string, b: string)
  {
    b != [] && (a == [] || CharRank(a[0]) < CharRank(b[0]) || (a[0] == b[0] && KeyLess(a[1..], b[1..])))
  }

  lemma {:induction false} KeyLessAsymmetric(a: string, b: string)
    requires KeyLess(a, b)
    ensures !KeyLess(b, a) && a != b
  {
    if a != [] && a[0] == b[0] { KeyLessAsymmetric(a[1..], b[1..]); }
  }

  lemma {:induction false} KeyLessTotal(a: string, b: string)
    ensures a == b || KeyLess(a, b) || KeyLess(b, a)
  {
    if a != [] && b != [] && a[0] == b[0] {
      KeyLessTotal(a[1..], b[1..]);
      assert a == [a[0]] + a[1..] && b == [b[0]] + b[1..];
    }
  }

  lemma {:induction false} KeyLessTransitive(a: string, b: string, c: string)
    requires KeyLess(a, b) && KeyLess(b, c)
    ensures KeyLess(a, c)
  {
    if a != [] && a[0] == b[0] && b[0] == c[0] { KeyLessTransitive(a[1..], b[1..], c[1..]); }
  }

  // ----- keyed lists

  ghost predicate DistinctKeys<T>(ps: seq<Pair<T>>)
  {
    forall i, j :: 0 <= i < j < |ps| ==> ps[i].key != ps[j].key
  }

  ghost predicate HasKey<T>(ps: seq<Pair<T>>, k: string)
  {
    exists i :: 0 <= i < |ps| && ps[i].key == k
  }

  /** The value a key names, as `obj[key]` reads it. */
  function Lookup<T>(ps: seq<Pair<T>>, k: string): (r: Option<T>)
    ensures r.Some? <==> HasKey(ps, k)
    ensures r.Some? ==> exists i :: 0 <= i < |ps| && ps[i].key == k && ps[i].val == r.value
  {
    if ps == [] then None
    else if ps[0].key == k then Some(ps[0].val)
    else
      var r := Lookup(ps[1..], k);
      assert ps == [ps[0]] + ps[1..];
      r
  }

  lemma {:induction false} LookupAt<T>(ps: seq<Pair<T>>, i: nat)
    requires DistinctKeys(ps) && i < |ps|
    ensures Lookup(ps, ps[i].key) == Some(ps[i].val)
  {
    if i > 0 { LookupAt(ps[1..], i - 1); }
  }

  ghost predicate SameLookups<T>(ps: seq<Pair<T>>, qs: seq<Pair<T>>)
  {
    forall k :: Lookup(ps, k) == Lookup(qs, k)
  }

  /** Strictly ascending keys. */
  ghost predicate Ascending<T>(ps: seq<Pair<T>>)
  {
    forall i, j :: 0 <= i < j < |ps| ==> KeyLess(ps[i].key, ps[j].key)
  }

  function Insert<T>(p: Pair<T>, ps: seq<Pair<T>>): (r: seq<Pair<T>>)
    ensures |r| == |ps| + 1
  {
    if ps == [] || KeyLess(p.key, ps[0].key) then [p] + ps else [ps[0]] + Insert(p, ps[1..])
  }

  /** `Object.keys(..).sort(deterministicCompare)`, carrying what each key names. */
  function SortByKey<T>(ps: seq<Pair<T>>): (r: seq<Pair<T>>)
    ensures |r| == |ps|
  {
    if ps == [] then [] else Insert(ps[0], SortByKey(ps[1..]))
  }

  lemma {:induction false} InsertLookup<T>(p: Pair<T>, ps: seq<Pair<T>>, k: string)
    requires !HasKey(ps, p.key)
    ensures Lookup(Insert(p, ps), k) == if k == p.key then Some(p.val) else Lookup(ps, k)
  {
    if ps == [] || KeyLess(p.key, ps[0].key) {
      assert ([p] + ps)[1..] == ps;
    } else {
      var rest := Insert(p, ps[1..]);
      assert ([ps[0]] + rest)[1..] == rest;
      assert forall i :: 0 <= i < |ps[1..]| ==> ps[1..][i] == ps[i + 1];
      assert ps[0].key != p.key;
      InsertLookup(p, ps[1..], k);
    }
  }

  lemma {:induction false} InsertAscending<T>(p: Pair<T>, ps: seq<Pair<T>>)
    requires Ascending(ps) && !HasKey(ps, p.key)
    ensures Ascending(Insert(p, ps))
    ensures forall q :: q in Insert(p, ps) ==> q == p || q in ps
  {
    if ps == [] {
    } else if KeyLess(p.key, ps[0].key) {
      forall j | 0 <= j < |ps| ensures KeyLess(p.key, ps[j].key) {
        if j > 0 { KeyLessTransitive(p.key, ps[0].key, ps[j].key); }
      }
    } else {
      KeyLessTotal(p.key, ps[0].key);
      assert KeyLess(ps[0].key, p.key);
      assert forall i :: 0 <= i < |ps[1..]| ==> ps[1..][i] == ps[i + 1];
      InsertAscending(p, ps[1..]);
      var rest := Insert(p, ps[1..]);
      forall j | 0 <= j < |rest| ensures KeyLess(ps[0].key, rest[j].key) {
        var q := rest[j];
        assert q in Insert(p, ps[1..]);
        assert q == p || q in ps[1..];
      }
      assert ps == [ps[0]] + ps[1..];
    }
  }

  lemma {:induction false} TailDistinct<T>(ps: seq<Pair<T>>)
    requires DistinctKeys(ps) && ps != []
    ensures DistinctKeys(ps[1..]) && !HasKey(ps[1..], ps[0].key)
  {
    assert forall i :: 0 <= i < |ps[1..]| ==> ps[1..][i] == ps[i + 1];
  }

  /** Sorting keeps what every key names, and leaves the keys ascending. */
  lemma {:induction false} SortKeeps<T>(ps: seq<Pair<T>>)
    requires DistinctKeys(ps)
    ensures Ascending(SortByKey(ps))
    ensures forall k :: Lookup(SortByKey(ps), k) == Lookup(ps, k)
  {
    if ps != [] {
      TailDistinct(ps);
      SortKeeps(ps[1..]);
      var rest := SortByKey(ps[1..]);
      assert !HasKey(rest, ps[0].key) by {
        assert Lookup(rest, ps[0].key) == Lookup(ps[1..], ps[0].key);
      }
      InsertAscending(ps[0], rest);
      forall k ensures Lookup(SortByKey(ps), k) == Lookup(ps, k) {
        InsertLookup(ps[0], rest, k);
      }
    }
  }

  lemma {:induction false} AscendingDistinct<T>(ps: seq<Pair<T>>)
    requires Ascending(ps)
    ensures DistinctKeys(ps)
  {
    forall i, j | 0 <= i < j < |ps| ensures ps[i].key != ps[j].key {
      KeyLessAsymmetric(ps[i].key, ps[j].key);
    }
  }

  /** An ascending list is determined by what its keys name. */
  lemma {:induction false} AscendingUnique<T>(ps: seq<Pair<T>>, qs: seq<Pair<T>>)
    requires Ascending(ps) && Ascending(qs)
    requires SameLookups(ps, qs)
    ensures ps == qs
  {
    AscendingDistinct(ps);
    AscendingDistinct(qs);
    if ps == [] {
      assert qs == [] || Lookup(qs, qs[0].key) == Lookup(ps, qs[0].key);
    } else {
      LookupAt(ps, 0);
      assert HasKey(qs, ps[0].key);
      var j :| 0 <= j < |qs| && qs[j].key == ps[0].key;
      LookupAt(qs, j);
      LookupAt(qs, 0);
      assert HasKey(ps, qs[0].key);
      var i :| 0 <= i < |ps| && ps[i].key == qs[0].key;
      if j > 0 { KeyLessAsymmetric(qs[0].key, qs[j].key); }
      TailDistinct(ps);
      TailDistinct(qs);
      forall k ensures Lookup(ps[1..], k) == Lookup(qs[1..], k) {
        assert Lookup(ps, k) == Lookup(qs, k);
      }
      AscendingUnique(ps[1..], qs[1..]);
      assert ps == [ps[0]] + ps[1..] && qs == [qs[0]] + qs[1..];
    }
  }

  /** Sorted forms agree exactly when every key names the same thing. */
  lemma {:induction false} SortedEqual<T>(ps: seq<Pair<T>>, qs: seq<Pair<T>>)
    requires DistinctKeys(ps) && DistinctKeys(qs)
    ensures SortByKey(ps) == SortByKey(qs) <==> SameLookups(ps, qs)
  {
    SortKeeps(ps);
    SortKeeps(qs);
    if SameLookups(ps, qs) {
      forall k ensures Lookup(SortByKey(ps), k) == Lookup(SortByKey(qs), k) {
        assert Lookup(ps, k) == Lookup(qs, k);
      }
      AscendingUnique(SortByKey(ps), SortByKey(qs));
    }
    if SortByKey(ps) == SortByKey(qs) {
      assert forall k :: Lookup(ps, k) == Lookup(SortByKey(ps), k) == Lookup(qs, k);
    }
  }
}
