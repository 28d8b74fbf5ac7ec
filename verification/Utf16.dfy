/**
 * The order of keys, in the terms of the platform: strings compare by their UTF-16 code units, the first difference.
 */
module Utf16 {
  import opened Common

  /** A scalar value's code units: itself, or from U+10000 a leading and a trailing surrogate. */
  function Units(c: char): (r: seq<int>)
    ensures 1 <= |r| <= 2
  {
    var n := c as int;
    if n < 0x10000 then [n] else [0xD800 + (n - 0x10000) / 0x400, 0xDC00 + (n - 0x10000) % 0x400]
  }

  function Encode(s: string): (r: seq<int>)
    ensures r == [] <==> s == []
  {
    if s == [] then [] else Units(s[0]) + Encode(s[1..])
  }

  /** At the first difference the first is smaller, or has ended. */
  ghost predicate Before(x: seq<int>, y: seq<int>)
  {
    exists k :: 0 <= k <= |x| && k < |y| && x[..k] == y[..k] && (k == |x| || x[k] < y[k])
  }

  predicate Less(x: seq<int>, y: seq<int>)
  {
    y != [] && (x == [] || x[0] < y[0] || (x[0] == y[0] && Less(x[1..], y[1..])))
  }

  lemma {:induction false} LessExact(x: seq<int>, y: seq<int>)
    ensures Less(x, y) <==> Before(x, y)
  {
    if x == [] || y == [] {
      if y != [] { assert x[..0] == y[..0]; }
    } else {
      LessExact(x[1..], y[1..]);
      assert x[..0] == y[..0];
      if x[0] == y[0] && Before(x[1..], y[1..]) {
        var k :| 0 <= k <= |x[1..]| && k < |y[1..]| && x[1..][..k] == y[1..][..k]
          && (k == |x[1..]| || x[1..][k] < y[1..][k]);
        assert x[..k + 1] == [x[0]] + x[1..][..k] && y[..k + 1] == [y[0]] + y[1..][..k];
      }
      if k :| 0 <= k <= |x| && k < |y| && x[..k] == y[..k] && (k == |x| || x[k] < y[k]) {
        if k > 0 {
          assert x[..k][0] == y[..k][0];
          assert x[1..][..k - 1] == x[..k][1..] && y[1..][..k - 1] == y[..k][1..];
        }
      }
    }
  }

  lemma {:induction false} LessAfter(u: seq<int>, x: seq<int>, y: seq<int>)
    ensures Less(u + x, u + y) <==> Less(x, y)
  {
    if u == [] {
      assert u + x == x && u + y == y;
    } else {
      assert (u + x)[1..] == u[1..] + x && (u + y)[1..] == u[1..] + y;
      LessAfter(u[1..], x, y);
    }
  }

  /** Different characters are told apart by their units, as their ranks say. */
  lemma LessByUnits(a: char, b: char, x: seq<int>, y: seq<int>)
    requires a != b
    ensures Less(Units(a) + x, Units(b) + y) <==> CharRank(a) < CharRank(b)
  {
    var u, v := Units(a), Units(b);
    assert (u + x)[0] == u[0] && (v + y)[0] == v[0];
    if u[0] == v[0] {
      assert |u| == 2 && |v| == 2 && u[1] != v[1];
      assert (u + x)[1..][0] == u[1] && (v + y)[1..][0] == v[1];
    }
  }

  /** deterministicCompare: the order keys are sorted in is the order of their code units. */
  lemma {:induction false} KeyLessExact(a: string, b: string)
    ensures KeyLess(a, b) <==> Before(Encode(a), Encode(b))
  {
    LessExact(Encode(a), Encode(b));
    KeyLessIsLess(a, b);
  }

  lemma {:induction false} KeyLessIsLess(a: string, b: string)
    ensures KeyLess(a, b) <==> Less(Encode(a), Encode(b))
  {
    if a != [] && b != [] {
      if a[0] == b[0] {
        KeyLessIsLess(a[1..], b[1..]);
        LessAfter(Units(a[0]), Encode(a[1..]), Encode(b[1..]));
      } else {
        LessByUnits(a[0], b[0], Encode(a[1..]), Encode(b[1..]));
      }
    }
  }
}
