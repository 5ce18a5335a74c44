/**
 The bit packer of the iLBC bitstream: values of given widths are written most
 significant bit first into a row of bytes and read back.
 */
module BitPacking {

  import opened Sequences

  type Byte = b: int | 0 <= b < 256

  // ----- the integer operations of the program -------------------------------

  function Shl(v: nat, n: nat): nat
    decreases n
  {
    if n == 0 then v else Shl(2 * v, n - 1)
  }

  function Shr(v: nat, n: nat): nat
    decreases n
  {
    if n == 0 then v else Shr(v / 2, n - 1)
  }

  /** Bitwise or. */
  function Or(a: nat, b: nat): nat {
    if a == 0 && b == 0 then 0
    else 2 * Or(a / 2, b / 2) + (if a % 2 == 1 || b % 2 == 1 then 1 else 0)
  }

  /** The value can be written with n bits. */
  predicate Fits(v: nat, n: nat) {
    Shr(v, n) == 0
  }

  // ----- bits of a number ----------------------------------------------------

  /** The n low bits of v, most significant first. */
  function BitsOf(v: nat, n: nat): (bits: seq<bool>)
    ensures |bits| == n
  {
    if n == 0 then [] else BitsOf(v / 2, n - 1) + [v % 2 == 1]
  }

  function ValueOf(bits: seq<bool>): nat {
    if bits == [] then 0
    else 2 * ValueOf(bits[..|bits| - 1]) + (if bits[|bits| - 1] then 1 else 0)
  }

  function Zeros(n: nat): (z: seq<bool>)
    ensures |z| == n && forall i :: 0 <= i < n ==> !z[i]
  {
    seq(n, _ => false)
  }

  /** A value that fits is below the power of two of its width. */
  lemma {:induction false} FitsBelow(v: nat, n: nat)
    ensures Fits(v, n) <==> v < Shl(1, n)
  {
    if n > 0 {
      FitsBelow(v / 2, n - 1);
      ShlDouble(1, n - 1);
    }
  }

  lemma {:induction false} ShlDouble(v: nat, n: nat)
    ensures Shl(2 * v, n) == 2 * Shl(v, n)
    decreases n
  {
    if n > 0 {
      ShlDouble(2 * v, n - 1);
    }
  }

  lemma {:induction false} ShrShl(v: nat, n: nat, m: nat)
    requires n <= m
    ensures Shr(Shl(v, n), m) == Shr(v, m - n)
  {
    if n > 0 {
      ShlDouble(v, n - 1);
      ShrShl(v, n - 1, m - 1);
    }
  }

  lemma {:induction false} ShlShrBound(v: nat, n: nat)
    ensures Shl(Shr(v, n), n) <= v
    ensures BitsOf(v - Shl(Shr(v, n), n), n) == BitsOf(v, n)
    ensures Fits(v - Shl(Shr(v, n), n), n)
  {
    if n > 0 {
      ShlShrBound(v / 2, n - 1);
      ShlDouble(Shr(v, n), n - 1);
      assert (v - Shl(Shr(v, n), n)) / 2 == v / 2 - Shl(Shr(v / 2, n - 1), n - 1);
    }
  }

  /** Reading back the bits of a number that fits gives the number. */
  lemma {:induction false} ValueOfBits(v: nat, n: nat)
    requires Fits(v, n)
    ensures ValueOf(BitsOf(v, n)) == v
  {
    if n > 0 {
      ValueOfBits(v / 2, n - 1);
      assert BitsOf(v, n)[..n - 1] == BitsOf(v / 2, n - 1);
    }
  }

  lemma {:induction false} BitsOfValue(bits: seq<bool>)
    ensures Fits(ValueOf(bits), |bits|)
    ensures BitsOf(ValueOf(bits), |bits|) == bits
  {
    if bits != [] {
      BitsOfValue(bits[..|bits| - 1]);
    }
  }

  /** The bits of a number: those of its high part, then the low ones. */
  lemma {:induction false} BitsCut(v: nat, m: nat, n: nat)
    ensures BitsOf(v, m + n) == BitsOf(Shr(v, n), m) + BitsOf(v, n)
  {
    if n > 0 {
      BitsCut(v / 2, m, n - 1);
      assert BitsOf(v, m + n) == BitsOf(Shr(v, n), m) + BitsOf(v / 2, n - 1) + [v % 2 == 1];
    }
  }

  lemma {:induction false} BitsOfZero(n: nat)
    ensures BitsOf(0, n) == Zeros(n)
  {
    if n > 0 {
      BitsOfZero(n - 1);
    }
  }

  lemma {:induction false} BitsShifted(v: nat, m: nat, n: nat)
    ensures BitsOf(Shl(v, n), m + n) == BitsOf(v, m) + Zeros(n)
  {
    if n == 0 {
      assert BitsOf(v, m) + Zeros(0) == BitsOf(v, m);
    } else {
      ShlDouble(v, n - 1);
      BitsShifted(v, m, n - 1);
      assert BitsOf(v, m) + Zeros(n - 1) + [false] == BitsOf(v, m) + Zeros(n);
    }
  }

  lemma {:induction false} OrBits(a: nat, b: nat, n: nat)
    ensures forall i :: 0 <= i < n ==> BitsOf(Or(a, b), n)[i] == (BitsOf(a, n)[i] || BitsOf(b, n)[i])
  {
    if n > 0 {
      OrBits(a / 2, b / 2, n - 1);
      assert Or(a, b) / 2 == Or(a / 2, b / 2);
    }
  }

  lemma {:induction false} OrFits(a: nat, b: nat, n: nat)
    requires Fits(a, n) && Fits(b, n)
    ensures Fits(Or(a, b), n)
  {
    if n > 0 {
      OrFits(a / 2, b / 2, n - 1);
      assert Or(a, b) / 2 == Or(a / 2, b / 2);
    }
  }

  lemma {:induction false} ByteFits(v: nat)
    ensures Fits(v, 8) <==> v < 256
  {
    FitsBelow(v, 8);
    ShlEight(1);
  }

  lemma {:induction false} BitsPlus(v: nat, k: nat, n: nat)
    ensures BitsOf(v + Shl(k, n), n) == BitsOf(v, n)
  {
    if n > 0 {
      ShlDouble(k, n - 1);
      BitsPlus(v / 2, k, n - 1);
      assert (v + Shl(k, n)) / 2 == v / 2 + Shl(k, n - 1);
    }
  }

  lemma {:induction false} ShlEight(k: nat)
    ensures Shl(k, 8) == 256 * k
  {
    forall n: nat {
      ShlDouble(k, n);
    }
    assert Shl(k, 2) == 4 * k && Shl(k, 4) == 16 * k && Shl(k, 6) == 64 * k;
  }

  lemma {:induction false} BitsModByte(v: nat)
    ensures BitsOf(v % 256, 8) == BitsOf(v, 8)
  {
    ShlEight(v / 256);
    BitsPlus(v % 256, v / 256, 8);
  }

  /** Adding a low part under zeros puts it in their place. */
  lemma {:induction false} ValueOfSum(a: seq<bool>, c: seq<bool>)
    ensures ValueOf(a + Zeros(|c|)) + ValueOf(c) == ValueOf(a + c)
  {
    if c == [] {
      assert a + Zeros(0) == a && a + c == a;
    } else {
      var n := |c| - 1;
      ValueOfSum(a, c[..n]);
      assert (a + Zeros(|c|))[..|a| + n] == a + Zeros(n);
      assert (a + c)[..|a| + n] == a + c[..n];
    }
  }

  lemma {:induction false} ValueOfShifted(a: seq<bool>, n: nat)
    ensures ValueOf(a + Zeros(n)) == Shl(ValueOf(a), n)
  {
    if n == 0 {
      assert a + Zeros(0) == a;
    } else {
      ValueOfShifted(a, n - 1);
      assert (a + Zeros(n))[..|a| + n - 1] == a + Zeros(n - 1);
      ShlDouble(ValueOf(a), n - 1);
    }
  }

  // ----- the bits of the buffer ---------------------------------------------

  function AllBits(bytes: seq<Byte>): (bits: seq<bool>)
    ensures |bits| == 8 * |bytes|
  {
    if bytes == [] then []
    else AllBits(bytes[..|bytes| - 1]) + BitsOf(bytes[|bytes| - 1], 8)
  }

  lemma {:induction false} AllBitsAt(bytes: seq<Byte>, i: nat)
    requires i < |bytes|
    ensures AllBits(bytes)[..8 * i] == AllBits(bytes[..i])
    ensures AllBits(bytes)[8 * i..8 * i + 8] == BitsOf(bytes[i], 8)
  {
    var n := |bytes| - 1;
    if i < n {
      AllBitsAt(bytes[..n], i);
      assert bytes[..n][..i] == bytes[..i];
      assert AllBits(bytes)[..8 * n] == AllBits(bytes[..n]);
      assert AllBits(bytes)[..8 * i] == AllBits(bytes[..n])[..8 * i];
      assert AllBits(bytes)[8 * i..8 * i + 8] == AllBits(bytes[..n])[8 * i..8 * i + 8];
    }
  }

  /** Everything written up to bit `pos` of byte `cur`. */
  function Written(bytes: seq<Byte>, cur: nat, pos: nat): (bits: seq<bool>)
    requires cur < |bytes| && pos <= 8
    ensures |bits| == 8 * cur + pos
  {
    AllBits(bytes)[..8 * cur + pos]
  }

  lemma {:induction false} WrittenParts(bytes: seq<Byte>, cur: nat, pos: nat)
    requires cur < |bytes| && pos <= 8
    ensures Written(bytes, cur, pos) == AllBits(bytes[..cur]) + BitsOf(bytes[cur], 8)[..pos]
  {
    hide AllBits, BitsOf;
    AllBitsAt(bytes, cur);
    var w, b := Written(bytes, cur, pos), AllBits(bytes);
    assert w == b[..8 * cur] + b[8 * cur..8 * cur + 8][..pos];
  }

  /** Bits not yet written in the current byte are zero; at position 0 the byte is
      cleared before use. */
  predicate Clean(b: Byte, pos: nat)
    requires pos <= 8
  {
    pos == 0 || BitsOf(b, 8)[pos..] == Zeros(8 - pos)
  }

  /** From the position on, every bit is clear. */
  predicate Zeroed(b: Byte, pos: nat)
    requires pos <= 8
  {
    BitsOf(b, 8)[pos..] == Zeros(8 - pos)
  }

  lemma {:induction false} ZeroedIsClean(b: Byte, pos: nat)
    requires pos <= 8
    ensures Zeroed(b, pos) ==> Clean(b, pos)
    ensures pos > 0 && Clean(b, pos) ==> Zeroed(b, pos)
  {
  }

  /** Placing a field of w bits after the first p bits of a byte. */
  lemma {:induction false} PlaceField(b: Byte, p: nat, v: nat, w: nat)
    requires p + w <= 8 && Fits(v, w)
    requires BitsOf(b, 8)[p..] == Zeros(8 - p)
    ensures Shl(v, 8 - p - w) < 256
    ensures Or(b, Shl(v, 8 - p - w)) < 256
    ensures BitsOf(Or(b, Shl(v, 8 - p - w)), 8)
            == BitsOf(b, 8)[..p] + BitsOf(v, w) + Zeros(8 - p - w)
  {
    var r := 8 - p - w;
    var s := Shl(v, r);
    ShrShl(v, r, 8);
    ShrMore(v, w, p);
    ByteFits(s);
    ByteFits(b);
    OrFits(b, s, 8);
    ByteFits(Or(b, s));
    BitsShifted(v, p + w, r);
    BitsCut(v, p, w);
    BitsOfZero(p);
    OrBits(b, s, 8);
    hide BitsOf, Or, Shl, Shr;
    assert BitsOf(s, 8) == Zeros(p) + BitsOf(v, w) + Zeros(r);
    MergeBits(BitsOf(b, 8), BitsOf(v, w), BitsOf(Or(b, s), 8), p, r);
  }

  /** Bits or-ed in where there were none. */
  lemma {:induction false} MergeBits(b: seq<bool>, v: seq<bool>, l: seq<bool>, p: nat, r: nat)
    requires |b| == |l| == p + |v| + r && b[p..] == Zeros(|v| + r)
    requires var s := Zeros(p) + v + Zeros(r); forall i :: 0 <= i < |l| ==> l[i] == (b[i] || s[i])
    ensures l == b[..p] + v + Zeros(r)
  {
    var t := b[..p] + v + Zeros(r);
    forall i | 0 <= i < |l|
      ensures l[i] == t[i]
    {
      if p <= i {
        assert b[p..][i - p] == b[i];
      }
    }
  }

  lemma {:induction false} ShrZero(n: nat)
    ensures Shr(0, n) == 0
  {
    if n > 0 {
      ShrZero(n - 1);
    }
  }

  lemma {:induction false} ShrMore(v: nat, w: nat, p: nat)
    requires Fits(v, w)
    ensures Fits(v, w + p) && Shr(v, w) == 0
  {
    if w == 0 {
      ShrZero(p);
    } else {
      ShrMore(v / 2, w - 1, p);
    }
  }

  /** What the masked left shift leaves: the bits after the first p, moved up. */
  lemma {:induction false} MaskedShift(b: Byte, p: nat)
    requires p <= 8
    ensures BitsOf(Shl(b, p) % 256, 8) == BitsOf(b, 8)[p..] + Zeros(p)
    ensures Fits(Shl(b, p) % 256, 8)
  {
    var x := Shl(b, p);
    BitsModByte(x);
    BitsShifted(b, 8, p);
    BitsCut(x, p, 8);
    assert BitsOf(x, 8 + p) == BitsOf(x, p + 8);
    assert BitsOf(x, 8) == BitsOf(x, p + 8)[p..];
    ByteFits(x % 256);
  }

  lemma {:induction false} HighBits(u: nat, w: nat)
    requires Fits(u, 8) && w <= 8
    ensures Shr(u, 8 - w) == ValueOf(BitsOf(u, 8)[..w])
  {
    BitsCut(u, w, 8 - w);
    ShrTwice(u, 8 - w, w);
    ValueOfBits(Shr(u, 8 - w), w);
    assert BitsOf(u, 8) == BitsOf(Shr(u, 8 - w), w) + BitsOf(u, 8 - w);
  }

  /** Extracting a field that ends in the byte. */
  lemma {:induction false} TakeWithin(b: Byte, p: nat, w: nat)
    requires p + w <= 8
    ensures Shr(Shl(b, p) % 256, 8 - w) == ValueOf(BitsOf(b, 8)[p..p + w])
  {
    MaskedShift(b, p);
    HighBits(Shl(b, p) % 256, w);
    assert BitsOf(Shl(b, p) % 256, 8)[..w] == BitsOf(b, 8)[p..p + w];
  }

  /** Extracting the high end of a field that goes on in the next byte. */
  lemma {:induction false} TakeAcross(b: Byte, p: nat, w: nat)
    requires p <= 8 < p + w
    ensures var u := Shl(b, p) % 256;
            (if w < 8 then Shr(u, 8 - w) else Shl(u, w - 8))
            == ValueOf(BitsOf(b, 8)[p..] + Zeros(w - (8 - p)))
  {
    var u := Shl(b, p) % 256;
    MaskedShift(b, p);
    if w < 8 {
      HighBits(u, w);
      assert BitsOf(u, 8)[..w] == BitsOf(b, 8)[p..] + Zeros(w - (8 - p));
    } else {
      ValueOfBits(u, 8);
      ValueOfShifted(BitsOf(u, 8), w - 8);
      assert BitsOf(u, 8) + Zeros(w - 8) == BitsOf(b, 8)[p..] + Zeros(w - (8 - p));
    }
  }

  lemma {:induction false} ShrTwice(v: nat, n: nat, m: nat)
    ensures Shr(Shr(v, n), m) == Shr(v, n + m)
  {
    if n > 0 {
      ShrTwice(v / 2, n - 1, m);
    }
  }

  // ----- the packer ------------------------------------------------------------

  /** Splits off the leading bits of a value. */
  method PackSplit(index: nat, firstBits: nat, totalBits: nat) returns (first: nat, rest: nat)
    requires firstBits <= totalBits
    ensures Fits(index, totalBits) ==> first == ValueOf(BitsOf(index, totalBits)[..firstBits])
    ensures Fits(index, totalBits) ==> Fits(first, firstBits)
    ensures rest == ValueOf(BitsOf(index, totalBits)[firstBits..])
    ensures Fits(rest, totalBits - firstBits)
  {
    hide BitsOf, Shr, Shl;
    var restBits := totalBits - firstBits;
    first := Shr(index, restBits);
    ShlShrBound(index, restBits);
    rest := index - Shl(first, restBits);
    BitsCut(index, firstBits, restBits);
    ValueOfBits(rest, restBits);
    if Fits(index, totalBits) {
      ShrTwice(index, restBits, firstBits);
      ValueOfBits(first, firstBits);
    }
  }

  /** Appends low bits to a value. */
  method PackCombine(index: nat, rest: nat, restBits: nat, ghost high: seq<bool>, ghost low: seq<bool>)
    returns (combined: nat)
    requires index == ValueOf(high) && rest == ValueOf(low) && |low| == restBits
    ensures combined == ValueOf(high + low)
  {
    combined := Shl(index, restBits);
    combined := combined + rest;
    ValueOfShifted(high, restBits);
    ValueOfSum(high, low);
  }

  /** Ors a field of `w` bits into the current byte, after its first `pos` bits. */
  method OrField(bitstream: array<Byte>, cur: nat, pos: nat, field: nat, w: nat)
    requires cur < bitstream.Length && pos + w <= 8 && Fits(field, w)
    requires Zeroed(bitstream[cur], pos)
    modifies bitstream
    ensures Written(bitstream[..], cur, pos + w) == old(Written(bitstream[..], cur, pos)) + BitsOf(field, w)
    ensures Zeroed(bitstream[cur], pos + w)
    ensures forall i :: 0 <= i < bitstream.Length && i != cur ==> bitstream[i] == old(bitstream[i])
  {
    hide BitsOf, Written, Shl, Shr, Or, Fits;
    ghost var before := bitstream[..];
    PlaceField(bitstream[cur], pos, field, w);
    bitstream[cur] := Or(bitstream[cur], Shl(field, 8 - pos - w) % 256);
    assert BitsOf(bitstream[cur], 8)[..pos + w] == BitsOf(before[cur], 8)[..pos] + BitsOf(field, w);
    Extended(before, bitstream[..], cur, pos, BitsOf(field, w));
  }

  /** Starts the byte after `cur`. */
  method NextByte(bitstream: array<Byte>, cur: nat)
    requires cur + 1 < bitstream.Length
    modifies bitstream
    ensures Written(bitstream[..], cur + 1, 0) == old(Written(bitstream[..], cur, 8))
    ensures Zeroed(bitstream[cur + 1], 0)
    ensures forall i :: 0 <= i < bitstream.Length && i != cur + 1 ==> bitstream[i] == old(bitstream[i])
  {
    ghost var before := bitstream[..];
    bitstream[cur + 1] := 0;
    ClearedByte(before, bitstream[..], cur + 1);
    assert Written(before, cur + 1, 0) == Written(before, cur, 8);
  }

  /** Appends the `bitno` bits of `index` to the stream, whose end is bit `pos` of
      byte `cur`. Nothing before the end changes. */
  method DoPack(bitstream: array<Byte>, cur: nat, index: nat, bitno: nat, pos: nat) returns (cur': nat, pos': nat)
    requires cur < bitstream.Length && pos <= 8
    requires 8 * cur + pos + bitno <= 8 * bitstream.Length
    requires Fits(index, bitno) && Clean(bitstream[cur], pos)
    modifies bitstream
    ensures cur' < bitstream.Length && pos' <= 8 && Clean(bitstream[cur'], pos')
    ensures 8 * cur' + pos' == 8 * cur + pos + bitno
    ensures if bitno == 0 then pos' == pos else pos' > 0
    ensures Written(bitstream[..], cur', pos') == old(Written(bitstream[..], cur, pos)) + BitsOf(index, bitno)
    ensures forall i :: 0 <= i < bitstream.Length && (i < cur || i > cur') ==> bitstream[i] == old(bitstream[i])
  {
    hide BitsOf, Written, Shr, Shl, Or, Clean, Zeroed, Fits;
    cur', pos' := cur, pos;
    ZeroedIsClean(bitstream[cur], pos);
    ghost var start := Written(bitstream[..], cur, pos);
    if pos' == 0 {
      ghost var before := bitstream[..];
      bitstream[cur'] := 0;
      ClearedByte(before, bitstream[..], cur);
    }
    var v: nat, w: nat := index, bitno;
    ghost var done: seq<bool> := [];
    while w > 0
      invariant cur <= cur' < bitstream.Length && pos' <= 8
      invariant 8 * cur' + pos' + w == 8 * cur + pos + bitno
      invariant if w < bitno then pos' > 0 else cur' == cur && pos' == pos
      invariant Fits(v, w) && Zeroed(bitstream[cur'], pos')
      invariant done + BitsOf(v, w) == BitsOf(index, bitno)
      invariant Written(bitstream[..], cur', pos') == start + done
      invariant forall i :: 0 <= i < bitstream.Length && (i < cur || i > cur') ==> bitstream[i] == old(bitstream[i])
      decreases w
    {
      if pos' == 8 {
        NextByte(bitstream, cur');
        pos' := 0;
        cur' := cur' + 1;
      }
      var posLeft := 8 - pos';
      ghost var all := done + BitsOf(v, w);
      if w <= posLeft {
        OrField(bitstream, cur', pos', v, w);
        Regroup(start, done, BitsOf(v, w));
        done := all;
        pos' := pos' + w;
        w := 0;
        v := 0;
        NoBitsLeft(done);
      } else {
        var high := Shr(v, w - posLeft);
        CutHigh(v, posLeft, w);
        OrField(bitstream, cur', pos', high, posLeft);
        Regroup(start, done, BitsOf(high, posLeft));
        ghost var field := BitsOf(high, posLeft);
        pos' := 8;
        v := v - Shl(high, w - posLeft);
        w := w - posLeft;
        Regroup(done, field, BitsOf(v, w));
        done := done + field;
      }
    }
    ZeroedIsClean(bitstream[cur'], pos');
    NoBitsLeft(done);
  }

  lemma {:induction false} NoBitsLeft(done: seq<bool>)
    ensures Fits(0, 0) && forall v: nat :: done + BitsOf(v, 0) == done
  {
  }

  /** Taking the high bits off a value leaves the low ones. */
  lemma {:induction false} CutHigh(v: nat, n: nat, w: nat)
    requires n < w && Fits(v, w)
    ensures var high := Shr(v, w - n);
            && Fits(high, n)
            && Shl(high, w - n) <= v
            && Fits(v - Shl(high, w - n), w - n)
            && BitsOf(high, n) + BitsOf(v - Shl(high, w - n), w - n) == BitsOf(v, w)
  {
    ShrTwice(v, w - n, n);
    BitsCut(v, n, w - n);
    ShlShrBound(v, w - n);
  }

  lemma {:induction false} ClearedByte(before: seq<Byte>, after: seq<Byte>, cur: nat)
    requires cur < |before| && after == before[cur := 0]
    ensures Written(after, cur, 0) == Written(before, cur, 0)
    ensures Zeroed(after[cur], 0)
  {
    WrittenParts(before, cur, 0);
    WrittenParts(after, cur, 0);
    assert after[..cur] == before[..cur];
    BitsOfZero(8);
  }

  lemma {:induction false} Extended(before: seq<Byte>, after: seq<Byte>, cur: nat, pos: nat, field: seq<bool>)
    requires cur < |before| == |after| && pos + |field| <= 8
    requires forall i :: 0 <= i < cur ==> after[i] == before[i]
    requires BitsOf(after[cur], 8)[..pos + |field|] == BitsOf(before[cur], 8)[..pos] + field
    ensures Written(after, cur, pos + |field|) == Written(before, cur, pos) + field
  {
    WrittenParts(before, cur, pos);
    WrittenParts(after, cur, pos + |field|);
    assert after[..cur] == before[..cur];
  }

  /** The high end of a field that goes on in the next byte, in place. */
  method HighEnd(b: Byte, pos: nat, w: nat) returns (v: nat)
    requires pos <= 8 < pos + w
    ensures v == ValueOf(BitsOf(b, 8)[pos..] + Zeros(w - (8 - pos)))
  {
    TakeAcross(b, pos, w);
    if 8 - w > 0 {
      v := Shr(Shl(b, pos) % 256, 8 - w);
    } else {
      v := Shl(Shl(b, pos) % 256, w - 8);
    }
  }

  /** The contribution of the current byte to a field of which `w` bits are still to
      come, and the number of bits it took. */
  method ReadPiece(bitstream: array<Byte>, cur: nat, pos: nat, w: nat) returns (v: nat, n: nat)
    requires cur < bitstream.Length && pos < 8 && w > 0
    ensures n == if w <= 8 - pos then w else 8 - pos
    ensures v == ValueOf(AllBits(bitstream[..])[8 * cur + pos..8 * cur + pos + n] + Zeros(w - n))
  {
    hide BitsOf, AllBits, ValueOf, Shr, Shl;
    var bitsLeft := 8 - pos;
    ghost var byte := BitsOf(bitstream[cur], 8);
    if bitsLeft >= w {
      TakeWithin(bitstream[cur], pos, w);
      v := Shr(Shl(bitstream[cur], pos) % 256, 8 - w);
      n := w;
      BitsOfByte(AllBits(bitstream[..]), bitstream[..], cur, pos, n);
      assert byte[pos..pos + n] + Zeros(w - n) == byte[pos..pos + n];
    } else {
      v := HighEnd(bitstream[cur], pos, w);
      n := bitsLeft;
      BitsOfByte(AllBits(bitstream[..]), bitstream[..], cur, pos, n);
      assert byte[pos..pos + n] == byte[pos..];
    }
  }

  /** Adding the next piece to what was read so far. */
  lemma {:induction false} Accumulate(bits: seq<bool>, from: nat, a: nat, n: nat, left: nat)
    requires from + a + n <= |bits|
    ensures ValueOf(bits[from..from + a] + Zeros(n + left)) + ValueOf(bits[from + a..from + a + n] + Zeros(left))
            == ValueOf(bits[from..from + a + n] + Zeros(left))
  {
    var taken, piece := bits[from..from + a], bits[from + a..from + a + n];
    ValueOfSum(taken, piece + Zeros(left));
    assert taken + (piece + Zeros(left)) == bits[from..from + a + n] + Zeros(left);
  }

  /** Reads the next `bitno` bits of the stream as a number. */
  method Unpack(bitstream: array<Byte>, cur: nat, bitno: nat, pos: nat) returns (index: nat, cur': nat, pos': nat)
    requires cur < bitstream.Length && pos <= 8
    requires 8 * cur + pos + bitno <= 8 * bitstream.Length
    ensures cur' < bitstream.Length && pos' <= 8
    ensures 8 * cur' + pos' == 8 * cur + pos + bitno
    ensures if bitno == 0 then pos' == pos else pos' > 0
    ensures index == ValueOf(AllBits(bitstream[..])[8 * cur + pos..8 * cur + pos + bitno])
  {
    hide BitsOf, AllBits, ValueOf;
    ghost var bits := AllBits(bitstream[..]);
    ghost var from := 8 * cur + pos;
    index, cur', pos' := 0, cur, pos;
    var w: nat := bitno;
    ghost var got: nat := 0;
    ZerosValue(bitno);
    assert bits[from..from] + Zeros(bitno) == Zeros(bitno);
    while w > 0
      invariant cur <= cur' < bitstream.Length && pos' <= 8
      invariant got + w == bitno && 8 * cur' + pos' == from + got
      invariant if w < bitno then pos' > 0 else cur' == cur && pos' == pos
      invariant index == ValueOf(bits[from..from + got] + Zeros(w))
      decreases w
    {
      if pos' == 8 {
        pos' := 0;
        cur' := cur' + 1;
      }
      var v, n := ReadPiece(bitstream, cur', pos', w);
      Accumulate(bits, from, got, n, w - n);
      index := index + v;
      pos' := pos' + n;
      w := w - n;
      got := got + n;
    }
    assert bits[from..from + bitno] + Zeros(0) == bits[from..from + bitno];
  }

  lemma {:induction false} BitsOfByte(bits: seq<bool>, bytes: seq<Byte>, cur: nat, pos: nat, n: nat)
    requires bits == AllBits(bytes) && cur < |bytes| && pos + n <= 8
    ensures bits[8 * cur + pos..8 * cur + pos + n] == BitsOf(bytes[cur], 8)[pos..pos + n]
  {
    hide AllBits, BitsOf;
    AllBitsAt(bytes, cur);
    SliceOfSlice(bits, 8 * cur, 8, pos, n);
  }

  lemma {:induction false} ZerosValue(n: nat)
    ensures ValueOf(Zeros(n)) == 0
  {
    if n > 0 {
      ZerosValue(n - 1);
      assert Zeros(n)[..n - 1] == Zeros(n - 1);
    }
  }

  // ----- sequences of fields ---------------------------------------------------

  datatype Field = Field(value: nat, width: nat)

  ghost predicate AllFit(fields: seq<Field>) {
    forall i :: 0 <= i < |fields| ==> Fits(fields[i].value, fields[i].width)
  }

  /** Number of bits of the first n fields. */
  function BitCount(fields: seq<Field>): nat {
    if fields == [] then 0 else BitCount(fields[..|fields| - 1]) + fields[|fields| - 1].width
  }

  function FieldBits(fields: seq<Field>): (bits: seq<bool>)
    ensures |bits| == BitCount(fields)
  {
    if fields == [] then []
    else FieldBits(fields[..|fields| - 1]) + BitsOf(fields[|fields| - 1].value, fields[|fields| - 1].width)
  }

  lemma {:induction false} FieldBitsAt(fields: seq<Field>, i: nat)
    requires i < |fields|
    ensures BitCount(fields[..i]) + fields[i].width <= BitCount(fields)
    ensures FieldBits(fields)[BitCount(fields[..i])..BitCount(fields[..i]) + fields[i].width]
            == BitsOf(fields[i].value, fields[i].width)
  {
    hide BitsOf;
    var n := |fields| - 1;
    var from := BitCount(fields[..i]);
    var to := from + fields[i].width;
    var head := FieldBits(fields[..n]);
    assert FieldBits(fields) == head + BitsOf(fields[n].value, fields[n].width);
    if i < n {
      FieldBitsAt(fields[..n], i);
      assert fields[..n][..i] == fields[..i];
      assert FieldBits(fields)[from..to] == head[from..to];
    } else {
      assert from == |head|;
    }
  }

  /** Packs the fields one after the other. */
  method PackAll(bitstream: array<Byte>, fields: seq<Field>, cur: nat, pos: nat) returns (cur': nat, pos': nat)
    requires cur < bitstream.Length && pos <= 8 && Clean(bitstream[cur], pos)
    requires 8 * cur + pos + BitCount(fields) <= 8 * bitstream.Length
    requires AllFit(fields)
    modifies bitstream
    ensures cur' < bitstream.Length && pos' <= 8 && Clean(bitstream[cur'], pos')
    ensures 8 * cur' + pos' == 8 * cur + pos + BitCount(fields)
    ensures if BitCount(fields) == 0 then pos' == pos else pos' > 0
    ensures Written(bitstream[..], cur', pos') == old(Written(bitstream[..], cur, pos)) + FieldBits(fields)
  {
    hide BitsOf, Written;
    cur', pos' := cur, pos;
    ghost var start := Written(bitstream[..], cur, pos);
    var i := 0;
    while i < |fields|
      invariant 0 <= i <= |fields|
      invariant cur' < bitstream.Length && pos' <= 8 && Clean(bitstream[cur'], pos')
      invariant 8 * cur' + pos' == 8 * cur + pos + BitCount(fields[..i])
      invariant if BitCount(fields[..i]) == 0 then pos' == pos else pos' > 0
      invariant Written(bitstream[..], cur', pos') == start + FieldBits(fields[..i])
    {
      FieldBitsAt(fields, i);
      assert fields[..i + 1][..i] == fields[..i];
      cur', pos' := DoPack(bitstream, cur', fields[i].value, fields[i].width, pos');
      Regroup(start, FieldBits(fields[..i]), BitsOf(fields[i].value, fields[i].width));
      i := i + 1;
    }
    assert fields[..i] == fields;
  }

  /** The bits of field i of a run of fields, the run starting at bit `base` of the
      stream. */
  function FieldSlice(bits: seq<bool>, base: nat, fields: seq<Field>, i: nat): (slice: seq<bool>)
    requires i < |fields| && base + BitCount(fields) <= |bits|
    ensures |slice| == fields[i].width
  {
    FieldBitsAt(fields, i);
    var from := base + BitCount(fields[..i]);
    bits[from..from + fields[i].width]
  }

  function FieldAt(bits: seq<bool>, base: nat, fields: seq<Field>, i: nat): nat
    requires i < |fields| && base + BitCount(fields) <= |bits|
  {
    ValueOf(FieldSlice(bits, base, fields, i))
  }

  /** Reads fields of the given widths. */
  method UnpackAll(bitstream: array<Byte>, widths: seq<Field>, cur: nat, pos: nat)
    returns (values: seq<nat>, cur': nat, pos': nat)
    requires cur < bitstream.Length && pos <= 8
    requires 8 * cur + pos + BitCount(widths) <= 8 * bitstream.Length
    ensures cur' < bitstream.Length && pos' <= 8
    ensures 8 * cur' + pos' == 8 * cur + pos + BitCount(widths)
    ensures if BitCount(widths) == 0 then pos' == pos else pos' > 0
    ensures |values| == |widths|
    ensures forall i :: 0 <= i < |widths| ==>
              values[i] == FieldAt(AllBits(bitstream[..]), 8 * cur + pos, widths, i)
  {
    hide BitsOf, AllBits, ValueOf, FieldBits;
    values, cur', pos' := [], cur, pos;
    ghost var bits := AllBits(bitstream[..]);
    ghost var base := 8 * cur + pos;
    while |values| < |widths|
      invariant |values| <= |widths|
      invariant cur' < bitstream.Length && pos' <= 8
      invariant 8 * cur' + pos' == base + BitCount(widths[..|values|])
      invariant if BitCount(widths[..|values|]) == 0 then pos' == pos else pos' > 0
      invariant forall i :: 0 <= i < |values| ==> values[i] == FieldAt(bits, base, widths, i)
    {
      ghost var i := |values|;
      FieldBitsAt(widths, i);
      assert widths[..i + 1][..i] == widths[..i];
      var v;
      v, cur', pos' := Unpack(bitstream, cur', widths[|values|].width, pos');
      assert v == FieldAt(bits, base, widths, i);
      values := values + [v];
    }
    assert widths[..|values|] == widths;
  }

  /** Packing any fields that fit and reading back the same widths returns the same
      values and ends at the same byte and bit; what was in the stream before is
      still there. */
  method PackRoundTrip(bitstream: array<Byte>, fields: seq<Field>, cur: nat, pos: nat)
    returns (values: seq<nat>, endByte: nat, endBit: nat, readByte: nat, readBit: nat)
    requires cur < bitstream.Length && pos <= 8 && Clean(bitstream[cur], pos)
    requires 8 * cur + pos + BitCount(fields) <= 8 * bitstream.Length
    requires AllFit(fields)
    modifies bitstream
    ensures |values| == |fields| && forall i :: 0 <= i < |fields| ==> values[i] == fields[i].value
    ensures Written(bitstream[..], cur, pos) == old(Written(bitstream[..], cur, pos))
    ensures endByte < bitstream.Length && endBit <= 8 && readByte == endByte && readBit == endBit
    ensures Written(bitstream[..], endByte, endBit) == old(Written(bitstream[..], cur, pos)) + FieldBits(fields)
  {
    hide BitsOf, AllBits, ValueOf, FieldBits;
    ghost var start := Written(bitstream[..], cur, pos);
    endByte, endBit := PackAll(bitstream, fields, cur, pos);
    ghost var bits := AllBits(bitstream[..]);
    assert Written(bitstream[..], endByte, endBit)[..8 * cur + pos] == start;
    values, readByte, readBit := UnpackAll(bitstream, fields, cur, pos);
    forall i | 0 <= i < |fields|
      ensures values[i] == fields[i].value
    {
      FieldBitsAt(fields, i);
      assert values[i] == FieldAt(bits, 8 * cur + pos, fields, i);
      ValueOfBits(fields[i].value, fields[i].width);
      FieldAfterStart(bits, start, FieldBits(fields), BitCount(fields[..i]), fields[i].width);
    }
  }

  lemma {:induction false} FieldAfterStart(bits: seq<bool>, start: seq<bool>, body: seq<bool>, off: nat, w: nat)
    requires |start| + |body| <= |bits| && off + w <= |body|
    requires bits[..|start| + |body|] == start + body
    ensures bits[|start| + off..|start| + off + w] == body[off..off + w]
  {
    var all := bits[..|start| + |body|];
    assert bits[|start| + off..|start| + off + w] == all[|start| + off..|start| + off + w];
    assert (start + body)[|start| + off..|start| + off + w] == body[off..off + w];
  }
}
