/**
 * isPlannedUnlock: whether a signed unlock is the planned one with a SIGHASH_ALL signature in each signer slot. The
 * slots are not given; they are the bytes where the unlocks filled with 00 and with ff differ.
 */
module PlannedUnlock {

  // ----- the scan over hexadecimal texts

  /** `text.slice(from, to)`. */
  function Slice(text: string, from: nat, to: nat): (r: string)
  {
    if from >= |text| || to <= from then "" else if to >= |text| then text[from..] else text[from..to]
  }

  /** The scan from position `at` on; `inSlot` says whether the byte before lay in a slot. */
  predicate ScanFrom(signed: string, zero: string, ones: string, at: nat, inSlot: bool)
    decreases |zero| - at
  {
    if at >= |zero| then !inSlot || Slice(signed, if |signed| >= 2 then |signed| - 2 else 0, |signed|) == "01"
    else if Slice(zero, at, at + 2) != Slice(ones, at, at + 2) then ScanFrom(signed, zero, ones, at + 2, true)
    else
      && (inSlot ==> Slice(signed, if at >= 2 then at - 2 else 0, at) == "01")
      && Slice(signed, at, at + 2) == Slice(zero, at, at + 2)
      && ScanFrom(signed, zero, ones, at + 2, false)
  }

  method IsPlannedUnlock(signed: string, zero: string, ones: string) returns (ok: bool)
    ensures ok <==> |signed| == |zero| == |ones| && ScanFrom(signed, zero, ones, 0, false)
  {
    if |signed| != |zero| || |zero| != |ones| { return false; }
    var inSlot := false;
    var b := 0;
    while b < |zero|
      invariant ScanFrom(signed, zero, ones, 0, false) == ScanFrom(signed, zero, ones, b, inSlot)
      invariant inSlot ==> b >= 2
    {
      var z := Slice(zero, b, b + 2);
      var s := Slice(signed, b, b + 2);
      if z == Slice(ones, b, b + 2) {
        if inSlot && Slice(signed, b - 2, b) != "01" { return false; }
        inSlot := false;
        if s != z { return false; }
      } else {
        inSlot := true;
      }
      b := b + 2;
    }
    ok := !inSlot || Slice(signed, if |signed| >= 2 then |signed| - 2 else 0, |signed|) == "01";
  }

  // ----- the same scan over bytes

  /** Two hexadecimal digits. */
  type Byte = s: string | |s| == 2 witness "00"

  type Bytes = seq<Byte>

  /** The hexadecimal text of the bytes. */
  function Hex(bs: Bytes): (t: string)
    ensures |t| == 2 * |bs|
  {
    if bs == [] then [] else bs[0] + Hex(bs[1..])
  }

  lemma {:induction false} HexDigits(bs: Bytes, i: nat)
    requires i < |bs|
    ensures Hex(bs)[2 * i] == bs[i][0] && Hex(bs)[2 * i + 1] == bs[i][1]
  {
    if i > 0 {
      HexDigits(bs[1..], i - 1);
    }
  }

  lemma HexSlice(bs: Bytes, i: nat)
    requires i < |bs|
    ensures Slice(Hex(bs), 2 * i, 2 * i + 2) == bs[i]
  {
    hide Hex;
    HexDigits(bs, i);
    var t := Hex(bs);
    var r := Slice(t, 2 * i, 2 * i + 2);
    assert |r| == 2 && r[0] == t[2 * i] && r[1] == t[2 * i + 1];
  }

  /** The recognizer on bytes; `previous` is the signed byte before. */
  predicate Accepts(signed: Bytes, zero: Bytes, ones: Bytes, inSlot: bool, previous: Byte)
    requires |signed| == |zero| == |ones|
  {
    if zero == [] then !inSlot || previous == "01"
    else if zero[0] != ones[0] then Accepts(signed[1..], zero[1..], ones[1..], true, signed[0])
    else
      (!inSlot || previous == "01") && signed[0] == zero[0]
      && Accepts(signed[1..], zero[1..], ones[1..], false, signed[0])
  }

  lemma {:induction false} ScanIsAccepts(signed: Bytes, zero: Bytes, ones: Bytes, i: nat, inSlot: bool, previous: Byte)
    requires |signed| == |zero| == |ones| && i <= |zero|
    requires inSlot ==> 0 < i && previous == signed[i - 1]
    ensures ScanFrom(Hex(signed), Hex(zero), Hex(ones), 2 * i, inSlot)
            == Accepts(signed[i..], zero[i..], ones[i..], inSlot, previous)
    decreases |zero| - i
  {
    hide Slice, Hex;
    if inSlot { HexSlice(signed, i - 1); }
    if i == |zero| {
      if inSlot { assert 2 * |signed| - 2 == 2 * (i - 1); }
    } else {
      HexSlice(signed, i);
      HexSlice(zero, i);
      HexSlice(ones, i);
      ScanIsAccepts(signed, zero, ones, i + 1, zero[i] != ones[i], signed[i]);
      assert signed[i..][1..] == signed[i + 1..] && zero[i..][1..] == zero[i + 1..] && ones[i..][1..] == ones[i + 1..];
    }
  }

  // ----- layouts

  /** An unlock: fixed bytes, and the 65-byte slots signatures go into. */
  datatype Piece = Fixed(bytes: Bytes) | Slot

  const SIGNATURE_BYTES: nat := 65

  /** Runs of fixed bytes are not empty. */
  ghost predicate WellFormed(layout: seq<Piece>)
  {
    forall i :: 0 <= i < |layout| && layout[i].Fixed? ==> layout[i].bytes != []
  }

  /** Some fixed byte stands between any two slots. */
  ghost predicate Separated(layout: seq<Piece>)
  {
    forall i :: 0 <= i < |layout| - 1 && layout[i].Slot? ==> layout[i + 1].Fixed?
  }

  function Repeat(b: Byte, n: nat): (r: Bytes)
    ensures |r| == n && forall i :: 0 <= i < n ==> r[i] == b
  {
    if n == 0 then [] else [b] + Repeat(b, n - 1)
  }

  function Slots(layout: seq<Piece>): (n: nat)
  {
    if layout == [] then 0 else (if layout[0].Slot? then 1 else 0) + Slots(layout[1..])
  }

  /** The unlock with these signatures in its slots. */
  function Fill(layout: seq<Piece>, sigs: seq<Bytes>): (r: Bytes)
    requires |sigs| == Slots(layout)
  {
    if layout == [] then []
    else match layout[0]
      case Fixed(bs) => bs + Fill(layout[1..], sigs)
      case Slot => sigs[0] + Fill(layout[1..], sigs[1..])
  }

  /** The unlock with one byte repeated in every slot: the two placeholder unlocks. */
  function Placeholder(layout: seq<Piece>, b: Byte): (r: Bytes)
  {
    if layout == [] then []
    else match layout[0]
      case Fixed(bs) => bs + Placeholder(layout[1..], b)
      case Slot => Repeat(b, SIGNATURE_BYTES) + Placeholder(layout[1..], b)
  }

  lemma {:induction false} PlaceholderLength(layout: seq<Piece>, b: Byte, c: Byte)
    ensures |Placeholder(layout, b)| == |Placeholder(layout, c)|
  {
    if layout != [] { PlaceholderLength(layout[1..], b, c); }
  }

  /** A signature with the SIGHASH_ALL byte at its end. */
  predicate Signature(s: Bytes)
  {
    |s| == SIGNATURE_BYTES && s[SIGNATURE_BYTES - 1] == "01"
  }

  /** What the scan checks, piece by piece: only a slot that a fixed byte or the end follows has its last byte read. */
  predicate Scanned(signed: Bytes, layout: seq<Piece>)
    decreases |layout|
  {
    if layout == [] then signed == []
    else match layout[0]
      case Fixed(bs) => bs <= signed && Scanned(signed[|bs|..], layout[1..])
      case Slot =>
        && |signed| >= SIGNATURE_BYTES
        && (layout[1..] == [] || layout[1].Fixed? ==> signed[SIGNATURE_BYTES - 1] == "01")
        && Scanned(signed[SIGNATURE_BYTES..], layout[1..])
  }

  lemma {:induction false} AcceptsFixed(bs: Bytes, s: Bytes, z: Bytes, o: Bytes, inSlot: bool, previous: Byte)
    requires |s| == |bs| + |z| && |z| == |o| && bs != []
    ensures Accepts(s, bs + z, bs + o, inSlot, previous)
            <==> (!inSlot || previous == "01") && bs <= s && Accepts(s[|bs|..], z, o, false, s[|bs| - 1])
    decreases |bs|
  {
    assert (bs + z)[1..] == bs[1..] + z && (bs + o)[1..] == bs[1..] + o;
    if |bs| == 1 {
      assert bs[1..] + z == z && bs[1..] + o == o;
      assert bs <= s <==> s[0] == bs[0];
    } else {
      AcceptsFixed(bs[1..], s[1..], z, o, false, s[0]);
      assert s[1..][|bs| - 1..] == s[|bs|..];
      assert bs <= s <==> s[0] == bs[0] && bs[1..] <= s[1..] by {
        assert bs == [bs[0]] + bs[1..] && s == [s[0]] + s[1..];
      }
    }
  }

  lemma {:induction false} AcceptsSlot(n: nat, s: Bytes, z: Bytes, o: Bytes, inSlot: bool, previous: Byte)
    requires |s| == n + |z| && |z| == |o| && 0 < n
    ensures Accepts(s, Repeat("00", n) + z, Repeat("ff", n) + o, inSlot, previous)
            == Accepts(s[n..], z, o, true, s[n - 1])
    decreases n
  {
    var zs, os := Repeat("00", n), Repeat("ff", n);
    assert (zs + z)[0] == "00" && (os + o)[0] == "ff";
    assert zs[1..] == Repeat("00", n - 1) && os[1..] == Repeat("ff", n - 1);
    assert (zs + z)[1..] == zs[1..] + z && (os + o)[1..] == os[1..] + o;
    if n == 1 {
      assert zs[1..] + z == z && os[1..] + o == o;
    } else {
      AcceptsSlot(n - 1, s[1..], z, o, true, s[0]);
      assert s[1..][n - 1..] == s[n..];
    }
  }

  lemma {:induction false} AcceptsScanned(signed: Bytes, layout: seq<Piece>, inSlot: bool, previous: Byte)
    requires WellFormed(layout)
    requires |signed| == |Placeholder(layout, "00")| == |Placeholder(layout, "ff")|
    ensures Accepts(signed, Placeholder(layout, "00"), Placeholder(layout, "ff"), inSlot, previous)
            <==> Scanned(signed, layout) && (inSlot && (layout == [] || layout[0].Fixed?) ==> previous == "01")
    decreases |layout|
  {
    if layout != [] {
      var rest := layout[1..];
      var z, o := Placeholder(rest, "00"), Placeholder(rest, "ff");
      PlaceholderLength(rest, "00", "ff");
      assert WellFormed(rest);
      match layout[0]
      case Fixed(bs) =>
        AcceptsFixed(bs, signed, z, o, inSlot, previous);
        AcceptsScanned(signed[|bs|..], rest, false, signed[|bs| - 1]);
      case Slot =>
        AcceptsSlot(SIGNATURE_BYTES, signed, z, o, inSlot, previous);
        AcceptsScanned(signed[SIGNATURE_BYTES..], rest, true, signed[SIGNATURE_BYTES - 1]);
    }
  }

  // ----- exactly the filled unlocks

  ghost predicate Filled(signed: Bytes, layout: seq<Piece>)
  {
    exists sigs: seq<Bytes> :: IsFilling(signed, layout, sigs)
  }

  ghost predicate IsFilling(signed: Bytes, layout: seq<Piece>, sigs: seq<Bytes>)
  {
    |sigs| == Slots(layout) && (forall i :: 0 <= i < |sigs| ==> Signature(sigs[i])) && signed == Fill(layout, sigs)
  }

  lemma {:induction false} FillingScanned(signed: Bytes, layout: seq<Piece>, sigs: seq<Bytes>)
    requires IsFilling(signed, layout, sigs)
    ensures Scanned(signed, layout)
    decreases |layout|
  {
    if layout != [] {
      match layout[0]
      case Fixed(bs) =>
        assert signed[|bs|..] == Fill(layout[1..], sigs);
        FillingScanned(signed[|bs|..], layout[1..], sigs);
      case Slot =>
        assert Signature(sigs[0]);
        assert signed[SIGNATURE_BYTES..] == Fill(layout[1..], sigs[1..]);
        assert signed[SIGNATURE_BYTES - 1] == sigs[0][SIGNATURE_BYTES - 1];
        FillingScanned(signed[SIGNATURE_BYTES..], layout[1..], sigs[1..]);
    }
  }

  lemma {:induction false} ScannedFilling(signed: Bytes, layout: seq<Piece>) returns (sigs: seq<Bytes>)
    requires Scanned(signed, layout) && Separated(layout)
    ensures IsFilling(signed, layout, sigs)
    decreases |layout|
  {
    if layout == [] {
      sigs := [];
    } else {
      assert Separated(layout[1..]) by {
        forall i | 0 <= i < |layout[1..]| - 1 && layout[1..][i].Slot? ensures layout[1..][i + 1].Fixed? {
          assert layout[i + 1].Slot?;
        }
      }
      match layout[0]
      case Fixed(bs) =>
        sigs := ScannedFilling(signed[|bs|..], layout[1..]);
        assert signed == bs + signed[|bs|..];
      case Slot =>
        var rest := ScannedFilling(signed[SIGNATURE_BYTES..], layout[1..]);
        sigs := [signed[..SIGNATURE_BYTES]] + rest;
        assert sigs[1..] == rest;
        assert signed == signed[..SIGNATURE_BYTES] + signed[SIGNATURE_BYTES..];
        assert Signature(sigs[0]);
    }
  }

  /** An unlock the scan takes that has another last byte in every slot directly followed by a slot. */
  function Sample(layout: seq<Piece>): (r: Bytes)
  {
    if layout == [] then []
    else match layout[0]
      case Fixed(bs) => bs + Sample(layout[1..])
      case Slot =>
        Repeat("02", SIGNATURE_BYTES - 1) + [if |layout| > 1 && layout[1].Slot? then "02" else "01"]
          + Sample(layout[1..])
  }

  lemma {:induction false} SampleScanned(layout: seq<Piece>)
    ensures Scanned(Sample(layout), layout) && |Sample(layout)| == |Placeholder(layout, "00")|
    decreases |layout|
  {
    if layout != [] {
      SampleScanned(layout[1..]);
      match layout[0]
      case Fixed(bs) => assert Sample(layout)[|bs|..] == Sample(layout[1..]);
      case Slot =>
        assert Sample(layout)[SIGNATURE_BYTES..] == Sample(layout[1..]);
    }
  }

  lemma {:induction false} SampleNotFilled(layout: seq<Piece>, i: nat, sigs: seq<Bytes>)
    requires i + 1 < |layout| && layout[i].Slot? && layout[i + 1].Slot?
    ensures !IsFilling(Sample(layout), layout, sigs)
    decreases |layout|
  {
    if IsFilling(Sample(layout), layout, sigs) {
      match layout[0]
      case Fixed(bs) =>
        assert Sample(layout)[|bs|..] == Sample(layout[1..]) && Fill(layout, sigs)[|bs|..] == Fill(layout[1..], sigs);
        SampleNotFilled(layout[1..], i - 1, sigs);
      case Slot =>
        assert Signature(sigs[0]);
        assert Sample(layout)[SIGNATURE_BYTES - 1] == Fill(layout, sigs)[SIGNATURE_BYTES - 1] == "01";
        if i > 0 {
          assert Sample(layout)[SIGNATURE_BYTES..] == Sample(layout[1..]);
          assert Fill(layout, sigs)[SIGNATURE_BYTES..] == Fill(layout[1..], sigs[1..]);
          SampleNotFilled(layout[1..], i - 1, sigs[1..]);
        }
    }
  }

  /** What isPlannedUnlock accepts of a layout's placeholder unlocks. */
  ghost predicate Planned(signed: Bytes, layout: seq<Piece>)
  {
    var zero, ones := Hex(Placeholder(layout, "00")), Hex(Placeholder(layout, "ff"));
    |Hex(signed)| == |zero| == |ones| && ScanFrom(Hex(signed), zero, ones, 0, false)
  }

  lemma PlannedIsScanned(signed: Bytes, layout: seq<Piece>)
    requires WellFormed(layout)
    ensures Planned(signed, layout) <==> |signed| == |Placeholder(layout, "00")| && Scanned(signed, layout)
  {
    var z, o := Placeholder(layout, "00"), Placeholder(layout, "ff");
    PlaceholderLength(layout, "00", "ff");
    if |signed| == |z| {
      ScanIsAccepts(signed, z, o, 0, false, "00");
      assert signed[0..] == signed && z[0..] == z && o[0..] == o;
      AcceptsScanned(signed, layout, false, "00");
    }
  }

  lemma {:induction false} ScannedLength(signed: Bytes, layout: seq<Piece>)
    requires Scanned(signed, layout)
    ensures |signed| == |Placeholder(layout, "00")|
    decreases |layout|
  {
    if layout != [] {
      match layout[0]
      case Fixed(bs) => ScannedLength(signed[|bs|..], layout[1..]);
      case Slot => ScannedLength(signed[SIGNATURE_BYTES..], layout[1..]);
    }
  }

  /**
   * The recognizer accepts exactly the unlocks filled with SIGHASH_ALL signatures, for any number and position of
   * slots, if and only if no slot directly follows another.
   */
  lemma PlannedExactlyFilled(layout: seq<Piece>)
    requires WellFormed(layout)
    ensures (forall signed: Bytes :: Planned(signed, layout) <==> Filled(signed, layout)) <==> Separated(layout)
  {
    if Separated(layout) {
      forall signed: Bytes ensures Planned(signed, layout) <==> Filled(signed, layout) {
        SeparatedExact(signed, layout);
      }
    } else {
      var i :| 0 <= i < |layout| - 1 && layout[i].Slot? && !layout[i + 1].Fixed?;
      var signed := Sample(layout);
      SampleScanned(layout);
      PlannedIsScanned(signed, layout);
      forall sigs: seq<Bytes> ensures !IsFilling(signed, layout, sigs) {
        SampleNotFilled(layout, i, sigs);
      }
      assert Planned(signed, layout) && !Filled(signed, layout);
    }
  }

  lemma SeparatedExact(signed: Bytes, layout: seq<Piece>)
    requires WellFormed(layout) && Separated(layout)
    ensures Planned(signed, layout) <==> Filled(signed, layout)
  {
    PlannedIsScanned(signed, layout);
    if Scanned(signed, layout) {
      var sigs := ScannedFilling(signed, layout);
    }
    forall sigs: seq<Bytes> | IsFilling(signed, layout, sigs) ensures Planned(signed, layout) {
      FillingScanned(signed, layout, sigs);
      ScannedLength(signed, layout);
    }
  }
}
