/**
 The frame format of the iLBC bitstream: every parameter is cut into three parts,
 one for each uneven-level-protection class, and the classes follow each other.
 The parameters are listed in the order in which each class transmits them.
 */
module UlpFrame {
  import opened BitPacking

  const ULP_CLASSES := 3

  /** Bits of one parameter in each class; the table has two more columns, which the
      packing loop reads and which hold zero. */
  type Row = seq<nat>

  ghost predicate IsRow(row: Row) {
    |row| == ULP_CLASSES + 2 && row[3] == 0 && row[4] == 0
  }

  ghost predicate AreRows(rows: seq<Row>) {
    forall k :: 0 <= k < |rows| ==> IsRow(rows[k])
  }

  /** Bits of a parameter before class u. */
  function Start(row: Row, u: nat): nat
    requires u <= |row|
  {
    if u == 0 then 0 else Start(row, u - 1) + row[u - 1]
  }

  function Width(row: Row): nat
    requires |row| >= 3
  {
    Start(row, 3)
  }

  lemma {:induction false} StartSteps(row: Row)
    requires |row| >= 3
    ensures Start(row, 1) == row[0] && Start(row, 2) == row[0] + row[1] && Width(row) == row[0] + row[1] + row[2]
  {
    assert Start(row, 2) == Start(row, 1) + row[1];
  }

  /** The bits of a parameter that class u carries, and those it leaves. */
  function PartBits(v: nat, row: Row, u: nat): (bits: seq<bool>)
    requires IsRow(row) && u < 3
    ensures |bits| == row[u]
  {
    StartSteps(row);
    BitsOf(v, Width(row))[Start(row, u)..Start(row, u + 1)]
  }

  function LeftBits(v: nat, row: Row, u: nat): (bits: seq<bool>)
    requires IsRow(row) && u <= 3
  {
    StartSteps(row);
    BitsOf(v, Width(row))[Start(row, u)..]
  }

  /** The fields of a frame in transmission order, without the final bit. */
  function ClassFields(vs: seq<nat>, rows: seq<Row>, u: nat): (fields: seq<Field>)
    requires |vs| == |rows| && AreRows(rows) && u < 3
    ensures |fields| == |rows|
  {
    seq(|rows|, k requires 0 <= k < |rows| => Field(ValueOf(PartBits(vs[k], rows[k], u)), rows[k][u]))
  }

  function FrameFields(vs: seq<nat>, rows: seq<Row>): (fields: seq<Field>)
    requires |vs| == |rows| && AreRows(rows)
    ensures |fields| == 3 * |rows| + 1
    ensures forall u, k :: 0 <= u < 3 && 0 <= k < |rows| ==>
              fields[Slot(rows, u, k)] == Field(ValueOf(PartBits(vs[k], rows[k], u)), rows[k][u])
  {
    ClassFields(vs, rows, 0) + ClassFields(vs, rows, 1) + ClassFields(vs, rows, 2) + [Field(0, 1)]
  }

  /** The number of fields before class u. */
  function ClassStart(rows: seq<Row>, u: nat): nat {
    if u == 0 then 0 else if u == 1 then |rows| else if u == 2 then 2 * |rows| else 3 * |rows|
  }

  /** The place of parameter k of class u in the frame. */
  function Slot(rows: seq<Row>, u: nat, k: nat): nat
  {
    ClassStart(rows, u) + k
  }

  ghost predicate ParametersFit(vs: seq<nat>, rows: seq<Row>) {
    |vs| == |rows| && AreRows(rows) && forall k :: 0 <= k < |rows| ==> Fits(vs[k], Width(rows[k]))
  }

  // ----- sizes -------------------------------------------------------------------

  lemma {:induction false} BitCountConcat(a: seq<Field>, b: seq<Field>)
    ensures BitCount(a + b) == BitCount(a) + BitCount(b)
  {
    if b == [] {
      assert a + b == a;
    } else {
      BitCountConcat(a, b[..|b| - 1]);
      assert (a + b)[..|a + b| - 1] == a + b[..|b| - 1];
    }
  }

  /** Bits of all parameters together. */
  function TotalWidth(rows: seq<Row>): nat
    requires forall k :: 0 <= k < |rows| ==> |rows[k]| >= 3
  {
    if rows == [] then 0 else TotalWidth(rows[..|rows| - 1]) + Width(rows[|rows| - 1])
  }

  lemma {:induction false} ClassesSum(vs: seq<nat>, rows: seq<Row>)
    requires |vs| == |rows| && AreRows(rows)
    ensures BitCount(ClassFields(vs, rows, 0)) + BitCount(ClassFields(vs, rows, 1)) + BitCount(ClassFields(vs, rows, 2))
            == TotalWidth(rows)
  {
    hide PartBits, ValueOf;
    if rows != [] {
      var n := |rows| - 1;
      ClassesSum(vs[..n], rows[..n]);
      StartSteps(rows[n]);
      ClassPrefix(vs, rows, 0);
      ClassPrefix(vs, rows, 1);
      ClassPrefix(vs, rows, 2);
    }
  }

  lemma {:induction false} ClassPrefix(vs: seq<nat>, rows: seq<Row>, u: nat)
    requires |vs| == |rows| > 0 && AreRows(rows) && u < 3
    ensures BitCount(ClassFields(vs, rows, u))
            == BitCount(ClassFields(vs[..|rows| - 1], rows[..|rows| - 1], u)) + rows[|rows| - 1][u]
  {
    assert ClassFields(vs, rows, u)[..|rows| - 1] == ClassFields(vs[..|rows| - 1], rows[..|rows| - 1], u);
  }

  /** A frame takes the bits of its parameters and one more. */
  lemma {:induction false} FrameSize(vs: seq<nat>, rows: seq<Row>)
    requires |vs| == |rows| && AreRows(rows)
    ensures BitCount(FrameFields(vs, rows)) == TotalWidth(rows) + 1
  {
    hide ClassFields;
    var a, b, c := ClassFields(vs, rows, 0), ClassFields(vs, rows, 1), ClassFields(vs, rows, 2);
    ClassesSum(vs, rows);
    BitCountConcat(a, b);
    BitCountConcat(a + b, c);
    assert FrameFields(vs, rows)[..3 * |rows|] == a + b + c;
  }

  // ----- parts -------------------------------------------------------------------

  /** What the loop splits off a parameter and what it leaves. */
  lemma {:induction false} PartsOf(v: nat, row: Row, u: nat)
    requires IsRow(row) && u < 3
    ensures |LeftBits(v, row, u)| == row[u] + row[u + 1] + row[u + 2]
    ensures LeftBits(v, row, u)[..row[u]] == PartBits(v, row, u)
    ensures LeftBits(v, row, u)[row[u]..] == LeftBits(v, row, u + 1)
    ensures BitsOf(ValueOf(LeftBits(v, row, u)), |LeftBits(v, row, u)|) == LeftBits(v, row, u)
    ensures Fits(ValueOf(LeftBits(v, row, u)), |LeftBits(v, row, u)|)
  {
    hide BitsOf, ValueOf, Fits;
    StartSteps(row);
    BitsOfValue(LeftBits(v, row, u));
  }

  lemma {:induction false} PartsJoin(v: nat, row: Row)
    requires IsRow(row) && Fits(v, Width(row))
    ensures PartBits(v, row, 0) + PartBits(v, row, 1) + PartBits(v, row, 2) == BitsOf(v, Width(row))
    ensures ValueOf(LeftBits(v, row, 0)) == v
  {
    StartSteps(row);
    ValueOfBits(v, Width(row));
    assert LeftBits(v, row, 0) == BitsOf(v, Width(row));
    var b := BitsOf(v, Width(row));
    var s1, s2, s3 := Start(row, 1), Start(row, 2), Start(row, 3);
    assert b == b[0..s1] + b[s1..s2] + b[s2..s3];
  }

  // ----- encoder -----------------------------------------------------------------

  /** One turn of the packing loop: the part of parameter k that class u carries goes
      to the stream, the parameter keeps the rest. */
  method PackPart(bitstream: array<Byte>, params: array<nat>, k: nat, row: Row, u: nat, cur: nat, pos: nat,
                  ghost v: nat)
    returns (cur': nat, pos': nat)
    requires IsRow(row) && u < 3 && k < params.Length
    requires params[k] == ValueOf(LeftBits(v, row, u))
    requires cur < bitstream.Length && pos <= 8 && Clean(bitstream[cur], pos)
    requires 8 * cur + pos + row[u] <= 8 * bitstream.Length
    modifies bitstream, params
    ensures params[k] == ValueOf(LeftBits(v, row, u + 1))
    ensures forall i :: 0 <= i < params.Length && i != k ==> params[i] == old(params[i])
    ensures cur' < bitstream.Length && pos' <= 8 && Clean(bitstream[cur'], pos')
    ensures 8 * cur' + pos' == 8 * cur + pos + row[u]
    ensures Written(bitstream[..], cur', pos') == old(Written(bitstream[..], cur, pos)) + PartBits(v, row, u)
  {
    hide BitsOf, ValueOf, PartBits, LeftBits, Written, Clean, Fits;
    PartsOf(v, row, u);
    ghost var left := LeftBits(v, row, u);
    var firstpart, rest := PackSplit(params[k], row[u], row[u] + row[u + 1] + row[u + 2]);
    params[k] := rest;
    BitsOfValue(left[..row[u]]);
    cur', pos' := DoPack(bitstream, cur, firstpart, row[u], pos);
  }

  /** The bits that fields before field i occupy, and field i's own. */
  lemma {:induction false} Advance(fields: seq<Field>, i: nat)
    requires i < |fields|
    ensures FieldBits(fields[..i + 1]) == FieldBits(fields[..i]) + BitsOf(fields[i].value, fields[i].width)
    ensures BitCount(fields[..i + 1]) == BitCount(fields[..i]) + fields[i].width <= BitCount(fields)
  {
    assert fields[..i + 1][..i] == fields[..i];
    FieldBitsAt(fields, i);
  }

  lemma {:induction false} PartFieldBits(v: nat, row: Row, u: nat)
    requires IsRow(row) && u < 3
    ensures BitsOf(ValueOf(PartBits(v, row, u)), row[u]) == PartBits(v, row, u)
  {
    BitsOfValue(PartBits(v, row, u));
  }

  /** Packs a whole frame at the start of `bytes`, class by class, and the final zero
      bit. The parameters are consumed. */
  method EncodeFrame(bytes: array<Byte>, params: array<nat>, rows: seq<Row>) returns (cur: nat, pos: nat)
    requires ParametersFit(params[..], rows)
    requires TotalWidth(rows) + 1 <= 8 * bytes.Length
    modifies bytes, params
    ensures cur < bytes.Length && pos <= 8 && 8 * cur + pos == TotalWidth(rows) + 1
    ensures Written(bytes[..], cur, pos) == FieldBits(FrameFields(old(params[..]), rows))
  {
    hide BitsOf, ValueOf, FieldBits, BitCount, PartBits, LeftBits, Written, Clean, Fits, ClassFields;
    ghost var vs := params[..];
    ghost var fields := FrameFields(vs, rows);
    FrameSize(vs, rows);
    EncodeStart(bytes[..], vs, rows);
    cur, pos := 0, 0;
    var u := 0;
    while u < 3
      invariant 0 <= u <= 3
      invariant cur < bytes.Length && pos <= 8 && Clean(bytes[cur], pos)
      invariant 8 * cur + pos == BitCount(fields[..ClassStart(rows, u)])
      invariant Written(bytes[..], cur, pos) == FieldBits(fields[..ClassStart(rows, u)])
      invariant forall j :: 0 <= j < |rows| ==> params[j] == ValueOf(LeftBits(vs[j], rows[j], u))
    {
      cur, pos := EncodeClass(bytes, params, rows, u, cur, pos, vs, fields, ClassStart(rows, u));
      u := u + 1;
    }
    Advance(fields, 3 * |rows|);
    BitFits();
    cur, pos := DoPack(bytes, cur, 0, 1, pos);
    assert fields[..3 * |rows| + 1] == fields;
  }

  /** One class: a part of every parameter. */
  method EncodeClass(bytes: array<Byte>, params: array<nat>, rows: seq<Row>, u: nat, cur: nat, pos: nat,
                     ghost vs: seq<nat>, ghost fields: seq<Field>, ghost from: nat)
    returns (cur': nat, pos': nat)
    requires u < 3 && ParametersFit(vs, rows) && |vs| == params.Length
    requires fields == FrameFields(vs, rows) && BitCount(fields) <= 8 * bytes.Length
    requires from == ClassStart(rows, u) && from + |rows| < |fields|
    requires cur < bytes.Length && pos <= 8 && Clean(bytes[cur], pos)
    requires 8 * cur + pos == BitCount(fields[..from])
    requires Written(bytes[..], cur, pos) == FieldBits(fields[..from])
    requires forall j :: 0 <= j < |rows| ==> params[j] == ValueOf(LeftBits(vs[j], rows[j], u))
    modifies bytes, params
    ensures cur' < bytes.Length && pos' <= 8 && Clean(bytes[cur'], pos')
    ensures 8 * cur' + pos' == BitCount(fields[..from + |rows|])
    ensures Written(bytes[..], cur', pos') == FieldBits(fields[..from + |rows|])
    ensures forall j :: 0 <= j < |rows| ==> params[j] == ValueOf(LeftBits(vs[j], rows[j], u + 1))
  {
    hide BitsOf, ValueOf, FieldBits, BitCount, PartBits, LeftBits, Written, Clean, Fits, ClassFields;
    cur', pos' := cur, pos;
    var k := 0;
    while k < |rows|
      invariant 0 <= k <= |rows|
      invariant cur' < bytes.Length && pos' <= 8 && Clean(bytes[cur'], pos')
      invariant 8 * cur' + pos' == BitCount(fields[..from + k])
      invariant Written(bytes[..], cur', pos') == FieldBits(fields[..from + k])
      invariant forall j :: 0 <= j < |rows| ==>
                  params[j] == ValueOf(LeftBits(vs[j], rows[j], if j < k then u + 1 else u))
    {
      ghost var i := Slot(rows, u, k);
      Advance(fields, i);
      PartFieldBits(vs[k], rows[k], u);
      cur', pos' := PackPart(bytes, params, k, rows[k], u, cur', pos', vs[k]);
      k := k + 1;
    }
  }

  lemma {:induction false} BitFits()
    ensures Fits(0, 1) && BitsOf(0, 1) == [false]
  {
    assert BitsOf(0, 1) == BitsOf(0, 0) + [false];
  }

  lemma {:induction false} EncodeStart(bytes: seq<Byte>, vs: seq<nat>, rows: seq<Row>)
    requires ParametersFit(vs, rows) && |bytes| > 0
    ensures Written(bytes, 0, 0) == FieldBits(FrameFields(vs, rows)[..0]) == []
    ensures BitCount(FrameFields(vs, rows)[..0]) == 0
    ensures Clean(bytes[0], 0)
    ensures forall j :: 0 <= j < |rows| ==> vs[j] == ValueOf(LeftBits(vs[j], rows[j], 0))
  {
    forall j | 0 <= j < |rows|
      ensures vs[j] == ValueOf(LeftBits(vs[j], rows[j], 0))
    {
      PartsJoin(vs[j], rows[j]);
    }
  }

  // ----- decoder -----------------------------------------------------------------

  /** The widths of the fields of a frame. */
  function Layout(rows: seq<Row>): (fields: seq<Field>)
    requires AreRows(rows)
    ensures |fields| == 3 * |rows| + 1
    ensures forall u, k :: 0 <= u < 3 && 0 <= k < |rows| ==> fields[Slot(rows, u, k)].width == rows[k][u]
  {
    FrameFields(seq(|rows|, _ => 0), rows)
  }

  /** The bits at the place of parameter k of class u. */
  function PartSlice(bits: seq<bool>, rows: seq<Row>, u: nat, k: nat): (g: seq<bool>)
    requires AreRows(rows) && k < |rows| && u < 3
    requires BitCount(Layout(rows)) <= |bits|
    ensures |g| == rows[k][u]
  {
    FieldSlice(bits, 0, Layout(rows), Slot(rows, u, k))
  }

  /** The parts of parameter k in the stream, classes before u, put together. */
  function Gathered(bits: seq<bool>, rows: seq<Row>, k: nat, u: nat): (g: seq<bool>)
    requires AreRows(rows) && k < |rows| && u <= 3
    requires BitCount(Layout(rows)) <= |bits|
    decreases u
  {
    if u == 0 then []
    else Gathered(bits, rows, k, u - 1) + PartSlice(bits, rows, u - 1, k)
  }

  /** Reads a frame from the start of `bytes`: every parameter is put together from
      its three parts; the final bit is returned. */
  method DecodeFrame(bytes: array<Byte>, rows: seq<Row>, params: array<nat>) returns (lastBit: nat)
    requires AreRows(rows) && params.Length == |rows|
    requires BitCount(Layout(rows)) <= 8 * bytes.Length
    requires bytes.Length > 0
    modifies params
    ensures forall k :: 0 <= k < |rows| ==> params[k] == ValueOf(Gathered(AllBits(bytes[..]), rows, k, 3))
    ensures lastBit == FieldAt(AllBits(bytes[..]), 0, Layout(rows), 3 * |rows|)
  {
    hide AllBits, BitsOf, ValueOf, BitCount, ClassFields;
    ghost var bits := AllBits(bytes[..]);
    ghost var fields := Layout(rows);
    var i := 0;
    NothingGathered(bits, rows);
    while i < |rows|
      invariant 0 <= i <= |rows|
      invariant forall k :: 0 <= k < i ==> params[k] == 0
    {
      params[i] := 0;
      i := i + 1;
    }
    var cur: nat, pos: nat := 0, 0;
    var u := 0;
    while u < 3
      invariant 0 <= u <= 3
      invariant cur < bytes.Length && pos <= 8 && 8 * cur + pos == BitCount(fields[..ClassStart(rows, u)])
      invariant bits == AllBits(bytes[..])
      invariant forall j :: 0 <= j < |rows| ==> params[j] == ValueOf(Gathered(bits, rows, j, u))
    {
      cur, pos := DecodeClass(bytes, rows, params, u, cur, pos, bits);
      u := u + 1;
    }
    Advance(fields, 3 * |rows|);
    lastBit, cur, pos := Unpack(bytes, cur, 1, pos);
  }

  /** One class of the decoder's loop. */
  method DecodeClass(bytes: array<Byte>, rows: seq<Row>, params: array<nat>, u: nat, cur: nat, pos: nat,
                     ghost bits: seq<bool>)
    returns (cur': nat, pos': nat)
    requires AreRows(rows) && params.Length == |rows| && u < 3
    requires bits == AllBits(bytes[..]) && BitCount(Layout(rows)) <= 8 * bytes.Length
    requires cur < bytes.Length && pos <= 8 && 8 * cur + pos == BitCount(Layout(rows)[..ClassStart(rows, u)])
    requires forall j :: 0 <= j < |rows| ==> params[j] == ValueOf(Gathered(bits, rows, j, u))
    modifies params
    ensures cur' < bytes.Length && pos' <= 8 && 8 * cur' + pos' == BitCount(Layout(rows)[..ClassStart(rows, u + 1)])
    ensures forall j :: 0 <= j < |rows| ==> params[j] == ValueOf(Gathered(bits, rows, j, u + 1))
  {
    hide AllBits, BitsOf, ValueOf, BitCount, Layout, FieldSlice, PartSlice, Gathered;
    ghost var fields := Layout(rows);
    cur', pos' := cur, pos;
    var k := 0;
    while k < |rows|
      invariant 0 <= k <= |rows|
      invariant cur' < bytes.Length && pos' <= 8 && 8 * cur' + pos' == BitCount(fields[..ClassStart(rows, u) + k])
      invariant forall j :: 0 <= j < |rows| ==>
                  params[j] == ValueOf(Gathered(bits, rows, j, if j < k then u + 1 else u))
    {
      ghost var slot := Slot(rows, u, k);
      Advance(fields, slot);
      PartSliceAt(bits, rows, u, k);
      var lastpart;
      lastpart, cur', pos' := Unpack(bytes, cur', rows[k][u], pos');
      params[k] := PackCombine(params[k], lastpart, rows[k][u],
                               Gathered(bits, rows, k, u), PartSlice(bits, rows, u, k));
      k := k + 1;
    }
  }

  /** Where the bits of parameter k of class u start. */
  function PartStart(rows: seq<Row>, u: nat, k: nat): (from: nat)
    requires AreRows(rows) && k < |rows| && u < 3
    ensures from + rows[k][u] <= BitCount(Layout(rows))
  {
    FieldBitsAt(Layout(rows), Slot(rows, u, k));
    BitCount(Layout(rows)[..Slot(rows, u, k)])
  }

  lemma {:induction false} PartSliceAt(bits: seq<bool>, rows: seq<Row>, u: nat, k: nat)
    requires AreRows(rows) && k < |rows| && u < 3
    requires BitCount(Layout(rows)) <= |bits|
    ensures PartSlice(bits, rows, u, k) == bits[PartStart(rows, u, k)..PartStart(rows, u, k) + rows[k][u]]
    ensures Gathered(bits, rows, k, u + 1) == Gathered(bits, rows, k, u) + PartSlice(bits, rows, u, k)
  {
    hide BitsOf, FieldBits, Layout, BitCount;
  }

  lemma {:induction false} NothingGathered(bits: seq<bool>, rows: seq<Row>)
    requires AreRows(rows) && BitCount(Layout(rows)) <= |bits|
    ensures ValueOf([]) == 0 && BitCount(Layout(rows)[..0]) == 0
    ensures forall k :: 0 <= k < |rows| ==> Gathered(bits, rows, k, 0) == []
  {
  }

  // ----- round trip ----------------------------------------------------------------

  /** Positions depend on widths only. */
  lemma {:induction false} SameWidths(a: seq<Field>, b: seq<Field>)
    requires |a| == |b| && forall i :: 0 <= i < |a| ==> a[i].width == b[i].width
    ensures BitCount(a) == BitCount(b)
  {
    if a != [] {
      SameWidths(a[..|a| - 1], b[..|b| - 1]);
    }
  }

  lemma {:induction false} LayoutWidths(vs: seq<nat>, rows: seq<Row>)
    requires |vs| == |rows| && AreRows(rows)
    ensures forall i :: 0 <= i <= 3 * |rows| ==> FrameFields(vs, rows)[i].width == Layout(rows)[i].width
  {
  }

  /** A field read at its place in the stream is the field that was written. */
  lemma {:induction false} SliceOfFrame(bits: seq<bool>, vs: seq<nat>, rows: seq<Row>, i: nat)
    requires |vs| == |rows| && AreRows(rows) && i <= 3 * |rows|
    requires BitCount(FrameFields(vs, rows)) <= |bits|
    requires bits[..BitCount(FrameFields(vs, rows))] == FieldBits(FrameFields(vs, rows))
    ensures BitCount(Layout(rows)) == BitCount(FrameFields(vs, rows))
    ensures FieldSlice(bits, 0, Layout(rows), i)
            == BitsOf(FrameFields(vs, rows)[i].value, FrameFields(vs, rows)[i].width)
  {
    hide FrameFields, Layout, BitsOf, BitCount, FieldBits;
    var f, l := FrameFields(vs, rows), Layout(rows);
    LayoutWidths(vs, rows);
    SameWidths(f, l);
    SameWidths(f[..i], l[..i]);
    FieldBitsAt(f, i);
    var from := BitCount(f[..i]);
    assert bits[..BitCount(f)][from..from + f[i].width] == bits[from..from + f[i].width];
    assert 0 + from == from;
  }

  /** Every parameter of a frame read back is the parameter that was packed. */
  lemma {:induction false} ParameterRestored(bits: seq<bool>, vs: seq<nat>, rows: seq<Row>, k: nat)
    requires ParametersFit(vs, rows) && k < |rows|
    requires BitCount(FrameFields(vs, rows)) <= |bits|
    requires bits[..BitCount(FrameFields(vs, rows))] == FieldBits(FrameFields(vs, rows))
    ensures BitCount(Layout(rows)) == BitCount(FrameFields(vs, rows))
    ensures ValueOf(Gathered(bits, rows, k, 3)) == vs[k]
  {
    hide BitsOf, ValueOf, PartBits, BitCount, FieldBits, FieldSlice, ClassFields, Fits;
    SliceOfFrame(bits, vs, rows, Slot(rows, 0, k));
    SliceOfFrame(bits, vs, rows, Slot(rows, 1, k));
    SliceOfFrame(bits, vs, rows, Slot(rows, 2, k));
    PartFieldBits(vs[k], rows[k], 0);
    PartFieldBits(vs[k], rows[k], 1);
    PartFieldBits(vs[k], rows[k], 2);
    PartsJoin(vs[k], rows[k]);
    ValueOfBits(vs[k], Width(rows[k]));
    GatheredIsJoined(bits, rows, k, PartBits(vs[k], rows[k], 0), PartBits(vs[k], rows[k], 1),
                     PartBits(vs[k], rows[k], 2));
  }

  lemma {:induction false} GatheredIsJoined(bits: seq<bool>, rows: seq<Row>, k: nat, a: seq<bool>, b: seq<bool>,
                                            c: seq<bool>)
    requires AreRows(rows) && k < |rows| && BitCount(Layout(rows)) <= |bits|
    requires PartSlice(bits, rows, 0, k) == a
    requires PartSlice(bits, rows, 1, k) == b
    requires PartSlice(bits, rows, 2, k) == c
    ensures Gathered(bits, rows, k, 3) == a + b + c
  {
    hide PartSlice, Layout;
    assert Gathered(bits, rows, k, 1) == [] + a == a;
    assert Gathered(bits, rows, k, 2) == a + b;
  }

  /** The whole path: packing a frame and decoding the bytes gives every parameter
      back and a final bit of zero. */
  method FrameRoundTrip(bytes: array<Byte>, params: array<nat>, rows: seq<Row>, decoded: array<nat>)
    returns (lastBit: nat)
    requires ParametersFit(params[..], rows) && decoded.Length == |rows| && decoded != params
    requires TotalWidth(rows) + 1 <= 8 * bytes.Length
    modifies bytes, params, decoded
    ensures decoded[..] == old(params[..])
    ensures lastBit == 0
  {
    hide BitsOf, ValueOf, BitCount, FieldBits, AllBits, ClassFields, FrameFields, Layout, Gathered, FieldSlice;
    ghost var vs := params[..];
    var cur, pos := EncodeFrame(bytes, params, rows);
    ghost var bits := AllBits(bytes[..]);
    FrameSize(vs, rows);
    SliceOfFrame(bits, vs, rows, 3 * |rows|);
    lastBit := DecodeFrame(bytes, rows, decoded);
    forall k | 0 <= k < |rows|
      ensures decoded[k] == vs[k]
    {
      ParameterRestored(bits, vs, rows, k);
    }
    LastFieldIsZero(vs, rows);
  }

  lemma {:induction false} LastFieldIsZero(vs: seq<nat>, rows: seq<Row>)
    requires |vs| == |rows| && AreRows(rows)
    ensures FrameFields(vs, rows)[3 * |rows|] == Field(0, 1)
    ensures ValueOf(BitsOf(0, 1)) == 0
  {
    BitFits();
  }

  // ----- the two shipped tables ------------------------------------------------------

  const NO_OF_BYTES_20MS := 38
  const NO_OF_BYTES_30MS := 50

  datatype UlpTable = UlpTable(
    lsf: seq<Row>, start: Row, startFirst: Row, scale: Row, state: Row,
    extraCbIndex: seq<Row>, extraCbGain: seq<Row>, cbIndex: seq<Row>, cbGain: seq<Row>)

  const ULP_20MS := UlpTable(
    [[6, 0, 0, 0, 0], [7, 0, 0, 0, 0], [7, 0, 0, 0, 0]],
    [2, 0, 0, 0, 0], [1, 0, 0, 0, 0], [6, 0, 0, 0, 0], [0, 1, 2, 0, 0],
    [[6, 0, 1, 0, 0], [0, 0, 7, 0, 0], [0, 0, 7, 0, 0]],
    [[2, 0, 3, 0, 0], [1, 1, 2, 0, 0], [0, 0, 3, 0, 0]],
    [[7, 0, 1, 0, 0], [0, 0, 7, 0, 0], [0, 0, 7, 0, 0],
     [0, 0, 8, 0, 0], [0, 0, 8, 0, 0], [0, 0, 8, 0, 0]],
    [[1, 2, 2, 0, 0], [1, 1, 2, 0, 0], [0, 0, 3, 0, 0],
     [1, 1, 3, 0, 0], [0, 2, 2, 0, 0], [0, 0, 3, 0, 0]])

  const ULP_30MS := UlpTable(
    [[6, 0, 0, 0, 0], [7, 0, 0, 0, 0], [7, 0, 0, 0, 0],
     [6, 0, 0, 0, 0], [7, 0, 0, 0, 0], [7, 0, 0, 0, 0]],
    [3, 0, 0, 0, 0], [1, 0, 0, 0, 0], [6, 0, 0, 0, 0], [0, 1, 2, 0, 0],
    [[4, 2, 1, 0, 0], [0, 0, 7, 0, 0], [0, 0, 7, 0, 0]],
    [[1, 1, 3, 0, 0], [1, 1, 2, 0, 0], [0, 0, 3, 0, 0]],
    [[6, 1, 1, 0, 0], [0, 0, 7, 0, 0], [0, 0, 7, 0, 0],
     [0, 7, 1, 0, 0], [0, 0, 8, 0, 0], [0, 0, 8, 0, 0],
     [0, 7, 1, 0, 0], [0, 0, 8, 0, 0], [0, 0, 8, 0, 0],
     [0, 7, 1, 0, 0], [0, 0, 8, 0, 0], [0, 0, 8, 0, 0]],
    [[1, 2, 2, 0, 0], [1, 2, 1, 0, 0], [0, 0, 3, 0, 0],
     [0, 2, 3, 0, 0], [0, 2, 2, 0, 0], [0, 0, 3, 0, 0],
     [0, 1, 4, 0, 0], [0, 1, 3, 0, 0], [0, 0, 3, 0, 0],
     [0, 1, 4, 0, 0], [0, 1, 3, 0, 0], [0, 0, 3, 0, 0]])

  /** The rows in the order in which a class transmits its parts: LSF indices, start
      block, state samples, extra block, sub-blocks. */
  function FrameRows(t: UlpTable, stateShortLen: nat): (rows: seq<Row>)
  {
    t.lsf + [t.start, t.startFirst, t.scale] + seq(stateShortLen, _ => t.state)
    + t.extraCbIndex + t.extraCbGain + t.cbIndex + t.cbGain
  }

  ghost predicate IsTable(t: UlpTable) {
    && AreRows(t.lsf) && IsRow(t.start) && IsRow(t.startFirst) && IsRow(t.scale) && IsRow(t.state)
    && AreRows(t.extraCbIndex) && AreRows(t.extraCbGain) && AreRows(t.cbIndex) && AreRows(t.cbGain)
  }

  lemma {:induction false} TotalWidthConcat(a: seq<Row>, b: seq<Row>)
    requires AreRows(a) && AreRows(b)
    ensures TotalWidth(a + b) == TotalWidth(a) + TotalWidth(b)
  {
    if b == [] {
      assert a + b == a;
    } else {
      TotalWidthConcat(a, b[..|b| - 1]);
      assert (a + b)[..|a + b| - 1] == a + b[..|b| - 1];
    }
  }

  lemma {:induction false} TotalWidthRepeat(row: Row, n: nat)
    requires IsRow(row)
    ensures TotalWidth(seq(n, _ => row)) == n * Width(row)
  {
    if n > 0 {
      TotalWidthRepeat(row, n - 1);
      assert seq(n, _ => row)[..n - 1] == seq(n - 1, _ => row);
    }
  }

  lemma {:induction false} TotalWidth3(a: Row, b: Row, c: Row)
    requires IsRow(a) && IsRow(b) && IsRow(c)
    ensures TotalWidth([a, b, c])
            == a[0] + a[1] + a[2] + b[0] + b[1] + b[2] + c[0] + c[1] + c[2]
  {
    StartSteps(a);
    StartSteps(b);
    StartSteps(c);
    assert [a][..0] == [];
    assert TotalWidth([a]) == Width(a);
    assert [a, b][..1] == [a];
    assert TotalWidth([a, b]) == Width(a) + Width(b);
    assert [a, b, c][..2] == [a, b];
  }

  /** Rows come in threes: codebook stages, LSF splits and the start block. */
  lemma {:induction false} TotalWidthOfTriples(rows: seq<Row>, sums: seq<nat>)
    requires AreRows(rows) && |rows| == 3 * |sums|
    requires forall i :: 0 <= i < |sums| ==> sums[i] == TripleWidth(rows, i)
    ensures TotalWidth(rows) == Sum(sums)
  {
    if sums == [] {
      assert rows == [];
    } else {
      var n := |sums| - 1;
      var head := rows[..3 * n];
      forall i | 0 <= i < n
        ensures sums[..n][i] == TripleWidth(head, i)
      {
        assert sums[i] == TripleWidth(rows, i);
      }
      TotalWidthOfTriples(head, sums[..n]);
      TotalWidth3(rows[3 * n], rows[3 * n + 1], rows[3 * n + 2]);
      assert rows == head + [rows[3 * n], rows[3 * n + 1], rows[3 * n + 2]];
      TotalWidthConcat(head, [rows[3 * n], rows[3 * n + 1], rows[3 * n + 2]]);
    }
  }

  function TripleWidth(rows: seq<Row>, i: nat): nat
    requires AreRows(rows) && 3 * i + 2 < |rows|
  {
    var a, b, c := rows[3 * i], rows[3 * i + 1], rows[3 * i + 2];
    a[0] + a[1] + a[2] + b[0] + b[1] + b[2] + c[0] + c[1] + c[2]
  }

  function Sum(s: seq<nat>): nat {
    if s == [] then 0 else Sum(s[..|s| - 1]) + s[|s| - 1]
  }

  lemma {:induction false} FrameRowsWidth(t: UlpTable, n: nat)
    requires IsTable(t)
    ensures AreRows(FrameRows(t, n))
    ensures TotalWidth(FrameRows(t, n))
            == TotalWidth(t.lsf) + TotalWidth([t.start, t.startFirst, t.scale]) + n * Width(t.state)
               + TotalWidth(t.extraCbIndex) + TotalWidth(t.extraCbGain) + TotalWidth(t.cbIndex) + TotalWidth(t.cbGain)
  {
    hide TotalWidth, Width;
    var s0, s1 := [t.start, t.startFirst, t.scale], seq(n, _ => t.state);
    TotalWidthRepeat(t.state, n);
    TotalWidthConcat(t.lsf, s0);
    TotalWidthConcat(t.lsf + s0, s1);
    TotalWidthConcat(t.lsf + s0 + s1, t.extraCbIndex);
    TotalWidthConcat(t.lsf + s0 + s1 + t.extraCbIndex, t.extraCbGain);
    TotalWidthConcat(t.lsf + s0 + s1 + t.extraCbIndex + t.extraCbGain, t.cbIndex);
    TotalWidthConcat(t.lsf + s0 + s1 + t.extraCbIndex + t.extraCbGain + t.cbIndex, t.cbGain);
  }

  lemma {:induction false} Table20msParts()
    ensures IsTable(ULP_20MS) && Width(ULP_20MS.state) == 3
    ensures TotalWidth(ULP_20MS.lsf) == 20
    ensures TotalWidth(ULP_20MS.extraCbIndex) == 21 && TotalWidth(ULP_20MS.extraCbGain) == 12
    ensures TotalWidth(ULP_20MS.cbIndex) == 46 && TotalWidth(ULP_20MS.cbGain) == 24
  {
    hide TotalWidth, Width;
    ExtraParts20ms();
    CodebookParts20ms();
    assert Width(ULP_20MS.state) == 3 by { StartSteps(ULP_20MS.state); }
  }

  lemma {:induction false} ExtraParts20ms()
    ensures AreRows(ULP_20MS.lsf) && TotalWidth(ULP_20MS.lsf) == 20
    ensures AreRows(ULP_20MS.extraCbIndex) && TotalWidth(ULP_20MS.extraCbIndex) == 21
    ensures AreRows(ULP_20MS.extraCbGain) && TotalWidth(ULP_20MS.extraCbGain) == 12
  {
    hide TotalWidth, Width;
    TotalWidthOfTriples(ULP_20MS.lsf, [20]);
    SumOne(20);
    TotalWidthOfTriples(ULP_20MS.extraCbIndex, [21]);
    SumOne(21);
    TotalWidthOfTriples(ULP_20MS.extraCbGain, [12]);
    SumOne(12);
  }

  lemma {:induction false} CodebookParts20ms()
    ensures AreRows(ULP_20MS.cbIndex) && TotalWidth(ULP_20MS.cbIndex) == 46
    ensures AreRows(ULP_20MS.cbGain) && TotalWidth(ULP_20MS.cbGain) == 24
  {
    hide TotalWidth, Width;
    TotalWidthOfTriples(ULP_20MS.cbIndex, [22, 24]);
    SumTwo(22, 24);
    TotalWidthOfTriples(ULP_20MS.cbGain, [12, 12]);
    SumTwo(12, 12);
  }

  /** A 20 ms frame fills its 38 bytes exactly: 304 bits. */
  lemma {:induction false} Frame20msIs304Bits()
    ensures AreRows(FrameRows(ULP_20MS, 57))
    ensures TotalWidth(FrameRows(ULP_20MS, 57)) + 1 == 304 == 8 * NO_OF_BYTES_20MS
  {
    hide TotalWidth, Width, FrameRows;
    var t := ULP_20MS;
    Table20msParts();
    TotalWidth3(t.start, t.startFirst, t.scale);
    FrameRowsWidth(t, 57);
  }

  lemma {:induction false} CodebookParts30ms()
    ensures AreRows(ULP_30MS.cbIndex) && TotalWidth(ULP_30MS.cbIndex) == 94
    ensures AreRows(ULP_30MS.cbGain) && TotalWidth(ULP_30MS.cbGain) == 48
  {
    hide TotalWidth, Width;
    TotalWidthOfTriples(ULP_30MS.cbIndex, [22, 24, 24, 24]);
    SumFour(22, 24, 24, 24);
    TotalWidthOfTriples(ULP_30MS.cbGain, [12, 12, 12, 12]);
    SumFour(12, 12, 12, 12);
  }

  lemma {:induction false} Table30msParts()
    ensures IsTable(ULP_30MS) && Width(ULP_30MS.state) == 3
    ensures TotalWidth(ULP_30MS.lsf) == 40
    ensures TotalWidth(ULP_30MS.extraCbIndex) == 21 && TotalWidth(ULP_30MS.extraCbGain) == 12
    ensures TotalWidth(ULP_30MS.cbIndex) == 94 && TotalWidth(ULP_30MS.cbGain) == 48
  {
    hide TotalWidth, Width;
    var t := ULP_30MS;
    TotalWidthOfTriples(t.lsf, [20, 20]);
    TotalWidthOfTriples(t.extraCbIndex, [21]);
    TotalWidthOfTriples(t.extraCbGain, [12]);
    CodebookParts30ms();
    StartSteps(t.state);
    SumOne(21); SumOne(12); SumTwo(20, 20);
  }

  /** A 30 ms frame fills its 50 bytes exactly: 400 bits. */
  lemma {:induction false} Frame30msIs400Bits()
    ensures AreRows(FrameRows(ULP_30MS, 58))
    ensures TotalWidth(FrameRows(ULP_30MS, 58)) + 1 == 400 == 8 * NO_OF_BYTES_30MS
  {
    hide TotalWidth, Width, FrameRows;
    var t := ULP_30MS;
    Table30msParts();
    TotalWidth3(t.start, t.startFirst, t.scale);
    FrameRowsWidth(t, 58);
  }

  lemma {:induction false} SumOne(a: nat)
    ensures Sum([a]) == a
  {
    assert [a][..0] == [];
  }

  lemma {:induction false} SumTwo(a: nat, b: nat)
    ensures Sum([a, b]) == a + b
  {
    SumOne(a);
    assert [a, b][..1] == [a];
  }

  lemma {:induction false} SumFour(a: nat, b: nat, c: nat, d: nat)
    ensures Sum([a, b, c, d]) == a + b + c + d
  {
    SumTwo(a, b);
    assert [a, b, c][..2] == [a, b];
    assert [a, b, c, d][..3] == [a, b, c];
  }
}
