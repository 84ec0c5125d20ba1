// PNG row prediction: pngUnpredict() of pdf-text.ts, which fills one buffer in place, and
// _png_unpredict() of image_gate.py, which builds row after row.

module PngPredictor {
  import opened Options
  import opened PdfValues

  // ------------------------------------------------------------------ one byte

  function Abs(x: int): nat {
    if x < 0 then -x else x
  }

  function Paeth(a: Byte, b: Byte, c: Byte): Byte {
    var p := a + b - c;
    var pa, pb, pc := Abs(p - a), Abs(p - b), Abs(p - c);
    if pa <= pb && pa <= pc then a else if pb <= pc then b else c
  }

  // Section 9.4 of the PNG specification: the neighbour nearest to a + b - c, ties broken in the
  // order left, above, upper left.
  lemma PaethIsTheNearest(a: Byte, b: Byte, c: Byte)
    ensures var p, r := a + b - c, Paeth(a, b, c);
      && (r == a || r == b || r == c)
      && Abs(p - r) <= Abs(p - a) && Abs(p - r) <= Abs(p - b) && Abs(p - r) <= Abs(p - c)
      && (Abs(p - r) == Abs(p - a) ==> r == a)
      && (Abs(p - r) == Abs(p - b) ==> r == a || r == b)
  {
    var p := a + b - c;
    assert Abs(p - a) == Abs(b - c) && Abs(p - b) == Abs(a - c);
  }

  // The prediction of filter type t from the bytes to the left, above and to the upper left; a type
  // above 4 predicts nothing.
  function Predict(t: Byte, a: Byte, b: Byte, c: Byte): Byte {
    if t == 1 then a else if t == 2 then b else if t == 3 then (a + b) / 2 else if t == 4 then Paeth(a, b, c) else 0
  }

  // ------------------------------------------------------------------ one row

  // The byte bpp places before i, or 0 where the row has not begun.
  function Back(row: seq<Byte>, i: nat, bpp: nat): Byte
    requires i - bpp < |row|
  {
    if i >= bpp then row[i - bpp] else 0
  }

  // Bytes are added and subtracted modulo 256.
  function Plus(x: Byte, p: Byte): Byte {
    (x + p) % 256
  }

  function Minus(x: Byte, p: Byte): Byte {
    (x - p) % 256
  }

  // What row and prev predict for place i.
  function Guess(t: Byte, row: seq<Byte>, prev: seq<Byte>, bpp: nat, i: nat): Byte
    requires i - bpp < |row| && i < |prev|
  {
    Predict(t, Back(row, i, bpp), prev[i], Back(prev, i, bpp))
  }

  // The first n bytes of a row.
  function Restore(t: Byte, src: seq<Byte>, prev: seq<Byte>, bpp: nat, n: nat): (row: seq<Byte>)
    requires bpp > 0 && n <= |src| == |prev|
    ensures |row| == n
  {
    if n == 0 then []
    else
      var row := Restore(t, src, prev, bpp, n - 1);
      var i := n - 1;
      row + [Plus(src[i], Guess(t, row, prev, bpp, i))]
  }

  // Filtering, as section 9 of the PNG specification has it: the difference from the prediction.
  function Filter(t: Byte, row: seq<Byte>, prev: seq<Byte>, bpp: nat): (src: seq<Byte>)
    requires bpp > 0 && |row| == |prev|
    ensures |src| == |row|
  {
    seq(|row|, i requires 0 <= i < |row| => Minus(row[i], Guess(t, row, prev, bpp, i)))
  }

  lemma {:induction false} PlusMinus(x: Byte, p: Byte)
    ensures Plus(Minus(x, p), p) == x && Minus(Plus(x, p), p) == x
  {
    assert Minus(x, p) == if x >= p then x - p else x - p + 256;
    assert Plus(x, p) == if x + p < 256 then x + p else x + p - 256;
  }

  // A prediction looks no further than the place before i.
  lemma {:induction false} GuessFromFront(t: Byte, row: seq<Byte>, prev: seq<Byte>, bpp: nat, i: nat)
    requires bpp > 0 && i < |row| == |prev|
    ensures Guess(t, row[..i], prev, bpp, i) == Guess(t, row, prev, bpp, i)
  {
    hide Predict;
  }

  lemma {:induction false} RestoreFiltered(t: Byte, row: seq<Byte>, prev: seq<Byte>, bpp: nat, n: nat)
    requires bpp > 0 && n <= |row| == |prev|
    ensures Restore(t, Filter(t, row, prev, bpp), prev, bpp, n) == row[..n]
  {
    hide Plus, Minus, Guess;
    if n > 0 {
      var i := n - 1;
      RestoreFiltered(t, row, prev, bpp, i);
      GuessFromFront(t, row, prev, bpp, i);
      PlusMinus(row[i], Guess(t, row, prev, bpp, i));
      assert row[..n] == row[..i] + [row[i]];
    }
  }

  lemma {:induction false} RestorePrefix(t: Byte, src: seq<Byte>, prev: seq<Byte>, bpp: nat, k: nat, n: nat)
    requires bpp > 0 && k <= n <= |src| == |prev|
    ensures Restore(t, src, prev, bpp, n)[..k] == Restore(t, src, prev, bpp, k)
    decreases n
  {
    if k < n {
      RestorePrefix(t, src, prev, bpp, k, n - 1);
    }
  }

  lemma {:induction false} RestoreAt(t: Byte, src: seq<Byte>, prev: seq<Byte>, bpp: nat, n: nat, i: nat)
    requires bpp > 0 && i < n <= |src| == |prev|
    ensures var row := Restore(t, src, prev, bpp, n);
      row[i] == Plus(src[i], Guess(t, row[..i], prev, bpp, i))
  {
    hide Plus, Guess;
    RestorePrefix(t, src, prev, bpp, i + 1, n);
    RestorePrefix(t, src, prev, bpp, i, n);
    var row := Restore(t, src, prev, bpp, n);
    assert row[i] == row[..i + 1][i];
  }

  lemma {:induction false} FilterRestored(t: Byte, src: seq<Byte>, prev: seq<Byte>, bpp: nat)
    requires bpp > 0 && |src| == |prev|
    ensures Filter(t, Restore(t, src, prev, bpp, |src|), prev, bpp) == src
  {
    hide Plus, Minus, Guess, Restore;
    var row := Restore(t, src, prev, bpp, |src|);
    forall i | 0 <= i < |src|
      ensures Filter(t, row, prev, bpp)[i] == src[i]
    {
      RestoreAt(t, src, prev, bpp, |src|, i);
      GuessFromFront(t, row, prev, bpp, i);
      PlusMinus(src[i], Guess(t, row, prev, bpp, i));
    }
  }

  // ------------------------------------------------------------------ an image

  // Rows of one type byte and width bytes each, from data on; a last incomplete row is dropped.
  function Decode(data: seq<Byte>, prev: seq<Byte>, bpp: nat): (out: seq<Byte>)
    requires bpp > 0
    decreases |data|
  {
    var w := |prev|;
    if |data| < w + 1 then []
    else
      var row := Restore(data[0], data[1..w + 1], prev, bpp, w);
      row + Decode(data[w + 1..], row, bpp)
  }

  datatype Row = Row(filter: Byte, bytes: seq<Byte>)

  function Encode(rows: seq<Row>, prev: seq<Byte>, bpp: nat): seq<Byte>
    requires bpp > 0 && forall i :: 0 <= i < |rows| ==> |rows[i].bytes| == |prev|
  {
    if rows == [] then []
    else [rows[0].filter] + Filter(rows[0].filter, rows[0].bytes, prev, bpp) + Encode(rows[1..], rows[0].bytes, bpp)
  }

  function Pixels(rows: seq<Row>): seq<Byte> {
    if rows == [] then [] else rows[0].bytes + Pixels(rows[1..])
  }

  // The rows of encoded data, with the filters it names.
  function RowsOf(data: seq<Byte>, prev: seq<Byte>, bpp: nat): (rows: seq<Row>)
    requires bpp > 0
    ensures forall i :: 0 <= i < |rows| ==> |rows[i].bytes| == |prev|
    decreases |data|
  {
    var w := |prev|;
    if |data| < w + 1 then []
    else
      var row := Restore(data[0], data[1..w + 1], prev, bpp, w);
      [Row(data[0], row)] + RowsOf(data[w + 1..], row, bpp)
  }

  // Whatever filter each row chooses, decoding an encoded image gives its bytes back.
  lemma {:induction false} DecodeEncoded(rows: seq<Row>, prev: seq<Byte>, bpp: nat)
    requires bpp > 0 && forall i :: 0 <= i < |rows| ==> |rows[i].bytes| == |prev|
    ensures Decode(Encode(rows, prev, bpp), prev, bpp) == Pixels(rows)
    decreases |rows|
  {
    hide Restore, Filter;
    if rows != [] {
      var r, w := rows[0], |prev|;
      var src, rest := Filter(r.filter, r.bytes, prev, bpp), Encode(rows[1..], r.bytes, bpp);
      var data := [r.filter] + src + rest;
      assert data[1..w + 1] == src && data[w + 1..] == rest;
      RestoreFiltered(r.filter, r.bytes, prev, bpp, w);
      assert r.bytes[..w] == r.bytes;
      DecodeEncoded(rows[1..], r.bytes, bpp);
    }
  }

  // Conversely, encoding what was decoded with the same filters gives the data back, up to the last
  // complete row.
  lemma {:induction false} EncodeDecoded(data: seq<Byte>, prev: seq<Byte>, bpp: nat)
    requires bpp > 0
    ensures var rows := RowsOf(data, prev, bpp); var e := Encode(rows, prev, bpp);
      && Pixels(rows) == Decode(data, prev, bpp)
      && e <= data && |data| - |e| <= |prev|
    decreases |data|
  {
    hide Restore, Filter;
    var w := |prev|;
    if |data| >= w + 1 {
      var src, rest := data[1..w + 1], data[w + 1..];
      var row := Restore(data[0], src, prev, bpp, w);
      EncodeDecoded(rest, row, bpp);
      FilterRestored(data[0], src, prev, bpp);
      var rows := RowsOf(data, prev, bpp);
      assert rows[1..] == RowsOf(rest, row, bpp);
      var e := Encode(rows[1..], row, bpp);
      assert Encode(rows, prev, bpp) == [data[0]] + src + e;
      assert data == [data[0]] + src + rest;
    }
  }

  lemma {:induction false} DecodeLength(data: seq<Byte>, prev: seq<Byte>, bpp: nat)
    requires bpp > 0
    ensures |Decode(data, prev, bpp)| == |data| / (|prev| + 1) * |prev|
    decreases |data|
  {
    hide Restore;
    var w := |prev|;
    if |data| >= w + 1 {
      DecodeLength(data[w + 1..], Restore(data[0], data[1..w + 1], prev, bpp, w), bpp);
      OneRowLess(|data|, w + 1);
      assert (|data| / (w + 1) - 1) * w + w == |data| / (w + 1) * w;
    } else {
      assert |data| / (w + 1) == 0;
    }
  }

  lemma {:induction false} OneRowLess(n: nat, k: nat)
    requires 0 < k <= n
    ensures (n - k) / k == n / k - 1
  {
    var q := n / k;
    var d := (n - k) / k - (q - 1);
    assert n == k * q + n % k && n - k == k * ((n - k) / k) + (n - k) % k;
    assert k * d == n % k - (n - k) % k;
    assert d >= 1 ==> k * d >= k;
    assert d <= -1 ==> k * d <= -1 * k;
  }

  // ------------------------------------------------------------------ the two programs

  // Numbers of /DecodeParms; a missing one is None.
  datatype Parms = Parms(predictor: Option<nat>, colors: Option<nat>, bpc: Option<nat>, columns: Option<nat>)

  datatype Geometry = Geometry(bpp: nat, rowLen: nat)

  function CeilBytes(bits: nat): nat {
    (bits + 7) / 8
  }

  function GeometryOf(colors: nat, bpc: nat, columns: nat): (g: Geometry)
    ensures g.bpp > 0
  {
    var b := CeilBytes(colors * bpc);
    Geometry(if b < 1 then 1 else b, CeilBytes(colors * bpc * columns))
  }

  // The TypeScript default stands for a missing number, the Python default also for 0.
  function Ts(v: Option<nat>, default: nat): nat {
    if v.Some? then v.value else default
  }

  function Py(v: Option<nat>, default: nat): nat {
    if v.Some? && v.value != 0 then v.value else default
  }

  function TsGeometry(p: Parms): (g: Geometry)
    ensures g.bpp > 0
  {
    GeometryOf(Ts(p.colors, 1), Ts(p.bpc, 8), Ts(p.columns, 1))
  }

  function PyGeometry(p: Parms): (g: Geometry)
    ensures g.bpp > 0
  {
    GeometryOf(Py(p.colors, 1), Py(p.bpc, 8), Py(p.columns, 1))
  }

  // The row before the first one.
  function ZeroRow(n: nat): (z: seq<Byte>)
    ensures |z| == n
  {
    seq(n, _ => 0)
  }

  function Undone(data: seq<Byte>, g: Geometry): seq<Byte>
    requires g.bpp > 0
  {
    Decode(data, ZeroRow(g.rowLen), g.bpp)
  }

  function TsResult(data: seq<Byte>, p: Parms): seq<Byte> {
    if Ts(p.predictor, 1) < 10 then data else Undone(data, TsGeometry(p))
  }

  function PyResult(data: seq<Byte>, p: Parms): seq<Byte> {
    if Py(p.predictor, 1) < 10 then data else Undone(data, PyGeometry(p))
  }

  // The row before the one that starts at dst.
  ghost function Above(out: seq<Byte>, dst: nat, w: nat): (prev: seq<Byte>)
    requires dst <= |out|
    ensures |prev| == w
  {
    if w <= dst then out[dst - w..dst] else ZeroRow(w)
  }

  // The row loop of pngUnpredict(): one row restored in place after the ones before it.
  method RestoreInPlace(data: array<Byte>, out: array<Byte>, src: nat, dst: nat, bpp: nat, w: nat, first: bool)
    requires data != out && bpp > 0 && 0 < src && src + w <= data.Length && dst + w <= out.Length
    requires first <==> dst == 0
    requires !first ==> w <= dst
    requires w > 0
    modifies out
    ensures out[..dst] == old(out[..dst])
    ensures out[dst..dst + w] == Restore(data[src - 1], data[src..src + w], Above(old(out[..]), dst, w), bpp, w)
  {
    hide Predict, Plus;
    var t := data[src - 1];
    ghost var row := data[src..src + w];
    ghost var prev := Above(out[..], dst, w);
    for i := 0 to w
      invariant out[..dst] == old(out[..dst])
      invariant out[dst..dst + i] == Restore(t, row, prev, bpp, i)
    {
      var x := data[src + i];
      var a := if i >= bpp then out[dst + i - bpp] else 0;
      var b := if !first then out[dst - w + i] else 0;
      var c := if !first && i >= bpp then out[dst - w + i - bpp] else 0;
      ghost var done := out[dst..dst + i];
      assert i >= bpp ==> done[i - bpp] == out[dst + i - bpp];
      assert !first ==> forall k :: 0 <= k < w ==> prev[k] == out[..dst][dst - w + k] == out[dst - w + k];
      assert a == Back(done, i, bpp) && b == prev[i] && c == Back(prev, i, bpp);
      out[dst + i] := Plus(x, Predict(t, a, b, c));
      assert out[dst..dst + i] == done;
      assert out[dst..dst + i + 1] == done + [out[dst + i]];
    }
  }

  lemma {:induction false} MulMonotone(a: nat, b: nat, k: nat)
    requires a <= b
    ensures a * k <= b * k
  {
  }

  lemma {:induction false} NextRow(r: nat, w: nat)
    ensures (r + 1) * w == r * w + w
  {
  }

  lemma {:induction false} WholeRowsFit(n: nat, w: nat)
    requires w > 0
    ensures n / w * w <= n
  {
    assert n == w * (n / w) + n % w;
  }

  lemma {:induction false} RowFits(r: nat, rows: nat, w: nat, n: nat)
    requires r < rows && rows == n / (w + 1)
    ensures r * (w + 1) + w + 1 <= n && r * w + w <= rows * w
    ensures (r + 1) * (w + 1) == r * (w + 1) + w + 1 && (r + 1) * w == r * w + w
    ensures r > 0 ==> r * w >= w
  {
    MulMonotone(r + 1, rows, w + 1);
    MulMonotone(r + 1, rows, w);
    if r > 0 {
      MulMonotone(1, r, w);
    }
    NextRow(r, w + 1);
    NextRow(r, w);
    WholeRowsFit(n, w + 1);
  }

  lemma {:induction false} DecodeRow(all: seq<Byte>, at: nat, prev: seq<Byte>, bpp: nat)
    requires bpp > 0 && at + |prev| + 1 <= |all|
    ensures var w := |prev|; var row := Restore(all[at], all[at + 1..at + 1 + w], prev, bpp, w);
      Decode(all[at..], prev, bpp) == row + Decode(all[at + w + 1..], row, bpp)
  {
    hide Restore;
    var w, rest := |prev|, all[at..];
    assert rest[0] == all[at] && rest[1..w + 1] == all[at + 1..at + 1 + w] && rest[w + 1..] == all[at + w + 1..];
  }

  lemma {:induction false} RowAppended(now: seq<Byte>, before: seq<Byte>, dst: nat, w: nat)
    requires |now| == |before| && dst + w <= |now| && now[..dst] == before[..dst]
    ensures now[..dst + w] == before[..dst] + now[dst..dst + w]
    ensures Above(now, dst + w, w) == now[dst..dst + w]
  {
  }

  // The step of the row loop: a row restored, the rows after it, and the rows before.
  lemma {:induction false} RowDone(all: seq<Byte>, before: seq<Byte>, now: seq<Byte>, src: nat, dst: nat, w: nat,
                                   bpp: nat)
    requires bpp > 0 && src + w + 1 <= |all| && |now| == |before| && dst + w <= |now| && now[..dst] == before[..dst]
    requires now[dst..dst + w] == Restore(all[src], all[src + 1..src + 1 + w], Above(before, dst, w), bpp, w)
    ensures now[..dst + w] + Decode(all[src + w + 1..], Above(now, dst + w, w), bpp) ==
            before[..dst] + Decode(all[src..], Above(before, dst, w), bpp)
  {
    hide Restore, Decode;
    var row := now[dst..dst + w];
    DecodeRow(all, src, Above(before, dst, w), bpp);
    RowAppended(now, before, dst, w);
    var rest := Decode(all[src + w + 1..], row, bpp);
    assert before[..dst] + (row + rest) == before[..dst] + row + rest;
  }

  // pngUnpredict() after its parameters are read.
  method UnpredictInPlace(data: array<Byte>, g: Geometry) returns (out: array<Byte>)
    requires g.bpp > 0
    ensures fresh(out) && out[..] == Undone(data[..], g)
  {
    hide Decode, Restore, Above;
    var w := g.rowLen;
    var rows := data.Length / (w + 1);
    out := new Byte[rows * w](_ => 0);
    ghost var all := data[..];
    DecodeLength(all, ZeroRow(w), g.bpp);
    if w == 0 {
      return;
    }
    assert out[..0 * w] == [] && all[0 * (w + 1)..] == all && Above(out[..], 0, w) == ZeroRow(w) by {
      NothingAbove(out[..], w);
    }
    for r := 0 to rows
      invariant r * (w + 1) <= data.Length && r * w <= out.Length
      invariant out[..r * w] + Decode(all[r * (w + 1)..], Above(out[..], r * w, w), g.bpp) == Undone(all, g)
      invariant data[..] == all
    {
      RowFits(r, rows, w, data.Length);
      var src, dst := r * (w + 1), r * w;
      ghost var before := out[..];
      RestoreInPlace(data, out, src + 1, dst, g.bpp, w, r == 0);
      assert out[..][..dst] == out[..dst] == before[..dst] && out[..][dst..dst + w] == out[dst..dst + w];
      assert all[src] == data[src] && all[src + 1..src + 1 + w] == data[src + 1..src + 1 + w];
      RowDone(all, before, out[..], src, dst, w, g.bpp);
    }
    LastRow(all, Above(out[..], rows * w, w), w, rows, g.bpp);
    assert out[..rows * w] == out[..];
  }

  lemma {:induction false} NothingAbove(out: seq<Byte>, w: nat)
    requires w > 0
    ensures Above(out, 0, w) == ZeroRow(w)
  {
  }

  lemma {:induction false} LastRow(all: seq<Byte>, prev: seq<Byte>, w: nat, rows: nat, bpp: nat)
    requires bpp > 0 && |prev| == w && rows == |all| / (w + 1) && rows * (w + 1) <= |all|
    ensures Decode(all[rows * (w + 1)..], prev, bpp) == []
  {
    hide Restore;
    assert |all| == (w + 1) * rows + |all| % (w + 1);
  }

  // One row beside the previous one.
  method BuildRow(t: Byte, src: seq<Byte>, prev: array<Byte>, bpp: nat) returns (row: array<Byte>)
    requires bpp > 0 && |src| == prev.Length
    ensures fresh(row) && row.Length == prev.Length && row[..] == Restore(t, src, prev[..], bpp, |src|)
  {
    hide Predict, Plus;
    row := new Byte[prev.Length](_ => 0);
    for i := 0 to prev.Length
      invariant row[..i] == Restore(t, src, prev[..], bpp, i)
    {
      var a := if i >= bpp then row[i - bpp] else 0;
      var b := prev[i];
      var c := if i >= bpp then prev[i - bpp] else 0;
      ghost var done := row[..i];
      assert i >= bpp ==> done[i - bpp] == row[i - bpp];
      row[i] := Plus(src[i], Predict(t, a, b, c));
      assert row[..i + 1] == done + [row[i]];
    }
    assert row[..prev.Length] == row[..];
  }

  // _png_unpredict() after its parameters are read.
  method UnpredictByRows(data: seq<Byte>, g: Geometry) returns (out: seq<Byte>)
    requires g.bpp > 0
    ensures out == Undone(data, g)
  {
    hide Decode, Restore;
    var w := g.rowLen;
    out := [];
    var prev := new Byte[w](_ => 0);
    assert prev[..] == ZeroRow(w) && data[0 * (w + 1)..] == data;
    var rows := |data| / (w + 1);
    for r := 0 to rows
      invariant prev.Length == w && r * (w + 1) <= |data|
      invariant out + Decode(data[r * (w + 1)..], prev[..], g.bpp) == Undone(data, g)
    {
      RowFits(r, rows, w, |data|);
      var at := r * (w + 1);
      DecodeRow(data, at, prev[..], g.bpp);
      var row := BuildRow(data[at], data[at + 1..at + 1 + w], prev, g.bpp);
      assert out + (row[..] + Decode(data[at + w + 1..], row[..], g.bpp)) ==
             (out + row[..]) + Decode(data[at + w + 1..], row[..], g.bpp);
      out := out + row[..];
      prev := row;
    }
    LastRow(data, prev[..], w, rows, g.bpp);
    assert out + [] == out;
  }

  method PngUnpredictTs(data: array<Byte>, p: Parms) returns (out: array<Byte>)
    ensures out[..] == TsResult(data[..], p)
  {
    if Ts(p.predictor, 1) < 10 {
      return data;
    }
    out := UnpredictInPlace(data, TsGeometry(p));
  }

  method PngUnpredictPy(data: seq<Byte>, p: Parms) returns (out: seq<Byte>)
    ensures out == PyResult(data, p)
  {
    if Py(p.predictor, 1) < 10 {
      return data;
    }
    out := UnpredictByRows(data, PyGeometry(p));
  }

  predicate NoZero(p: Parms) {
    p.colors != Some(0) && p.bpc != Some(0) && p.columns != Some(0)
  }

  lemma {:induction false} NonZeroProduct(x: nat, y: nat, z: nat)
    requires x > 0 && y > 0 && z > 0
    ensures x * y * z > 0
  {
    assert x * y > 0;
  }

  lemma {:induction false} RowsProduceBytes(n: nat, w: nat)
    requires w > 0
    ensures n / (w + 1) * w > 0 <==> n >= w + 1
  {
    var rows := n / (w + 1);
    assert n == (w + 1) * rows + n % (w + 1);
    assert rows >= 1 ==> (w + 1) * rows >= w + 1 && rows * w >= 1;
  }

  lemma {:induction false} ZeroHasNoWidth(p: Parms)
    requires !NoZero(p)
    ensures TsGeometry(p).rowLen == 0 && PyGeometry(p).rowLen >= 1
  {
    var c, b, n := Ts(p.colors, 1), Ts(p.bpc, 8), Ts(p.columns, 1);
    assert c == 0 || b == 0 || n == 0;
    assert c * b * n == 0;
    NonZeroProduct(Py(p.colors, 1), Py(p.bpc, 8), Py(p.columns, 1));
  }

  // The two programs agree exactly when no parameter is 0, or nothing is predicted, or the data has
  // no complete row by the Python reading. A 0 is a width of no bytes in TypeScript and a missing
  // number in Python.
  lemma {:induction false} ProgramsAgree(data: seq<Byte>, p: Parms)
    ensures TsResult(data, p) == PyResult(data, p) <==>
      Ts(p.predictor, 1) < 10 || NoZero(p) || |data| < PyGeometry(p).rowLen + 1
  {
    hide Decode, CeilBytes;
    if Ts(p.predictor, 1) >= 10 {
      if NoZero(p) {
        assert TsGeometry(p) == PyGeometry(p);
      } else {
        ZeroHasNoWidth(p);
        var w := PyGeometry(p).rowLen;
        DecodeLength(data, ZeroRow(0), TsGeometry(p).bpp);
        DecodeLength(data, ZeroRow(w), PyGeometry(p).bpp);
        RowsProduceBytes(|data|, w);
      }
    }
  }

  // An input: no columns, and one complete row by the Python reading.
  lemma {:induction false} ZeroColumnsDisagree()
    ensures var p := Parms(Some(12), Some(1), Some(8), Some(0)); var data := [0, 7];
      && |data| == PyGeometry(p).rowLen + 1
      && TsResult(data, p) != PyResult(data, p)
  {
    ProgramsAgree([0, 7], Parms(Some(12), Some(1), Some(8), Some(0)));
  }
}
