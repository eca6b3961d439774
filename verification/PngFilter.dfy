// Scanline filtering as the PNG specification (section 9) defines it: every byte of a row is
// replaced by its difference from a prediction out of its left, upper and upper-left neighbours.
module PngFilter {
  import opened Base

  /** Conversion to an unsigned byte. */
  function Wrap(x: int): Byte { x % 256 }

  function Abs(x: int): nat { if x < 0 then -x else x }

  /** The Paeth predictor of section 9.4: the neighbour nearest to a + b - c, preferring the
      left one, then the upper one. */
  function Paeth(a: Byte, b: Byte, c: Byte): Byte
  {
    var p := a + b - c;
    if Abs(p - a) <= Abs(p - b) && Abs(p - a) <= Abs(p - c) then a
    else if Abs(p - b) <= Abs(p - c) then b
    else c
  }

  /** The prediction of filter type 0 to 4. */
  function Predict(filter: nat, a: Byte, b: Byte, c: Byte): Byte
  {
    match filter
    case 0 => 0
    case 1 => a
    case 2 => b
    case 3 => (a + b) / 2
    case _ => Paeth(a, b, c)
  }

  /** The predictions in the words of section 9: nothing, the byte to the left, the byte above, half
      of their sum rounded down, or whichever of left, up and upper left is nearest to
      left + up - upper left, the first of them in this order if several are. */
  lemma PredictLaw(filter: nat, a: Byte, b: Byte, c: Byte)
    requires filter <= 4
    ensures var p := Predict(filter, a, b, c);
      && (filter == 0 ==> p == 0) && (filter == 1 ==> p == a) && (filter == 2 ==> p == b)
      && (filter == 3 ==> 2 * p <= a + b <= 2 * p + 1)
      && (filter == 4 ==> NearestFirst(a + b - c, [a, b, c], p))
  {
    if filter == 4 {
      var near, p := [a, b, c], Paeth(a, b, c);
      if p == a { assert FirstNearest(a + b - c, near, 0); }
      else if p == b { assert FirstNearest(a + b - c, near, 1); }
      else { assert FirstNearest(a + b - c, near, 2); }
    }
  }

  ghost predicate NearestFirst(x: int, near: seq<Byte>, p: Byte)
  {
    exists k :: 0 <= k < |near| && near[k] == p && FirstNearest(x, near, k)
  }

  predicate FirstNearest(x: int, near: seq<Byte>, k: nat)
    requires k < |near|
  {
    forall i :: 0 <= i < |near| ==>
      Abs(x - near[k]) <= Abs(x - near[i]) && (i < k ==> Abs(x - near[k]) < Abs(x - near[i]))
  }

  /** The corresponding byte of the pixel to the left, n bytes before; without one, zero. */
  function Left(row: seq<Byte>, k: nat, n: nat): Byte
    requires 1 <= n && k <= |row|
  {
    if k < n then 0 else row[k - n]
  }

  function FilterByte(filter: nat, row: seq<Byte>, above: seq<Byte>, n: nat, k: nat): Byte
    requires 1 <= n && k < |row| == |above|
  {
    Wrap(row[k] - Predict(filter, Left(row, k, n), above[k], Left(above, k, n)))
  }

  function FilterLine(filter: nat, row: seq<Byte>, above: seq<Byte>, n: nat): (line: seq<Byte>)
    requires 1 <= n && |row| == |above|
    ensures |line| == |row|
  {
    seq(|row|, k requires 0 <= k < |row| => FilterByte(filter, row, above, n, k))
  }

  /** The next byte of a row, given the row reconstructed so far. */
  function ReconByte(filter: nat, raw: Byte, done: seq<Byte>, above: seq<Byte>, n: nat): Byte
    requires 1 <= n && |done| < |above|
  {
    Wrap(raw + Predict(filter, Left(done, |done|, n), above[|done|], Left(above, |done|, n)))
  }

  /** The first k bytes of the reconstructed row. */
  function Recon(filter: nat, raw: seq<Byte>, above: seq<Byte>, n: nat, k: nat): (row: seq<Byte>)
    requires 1 <= n && k <= |raw| == |above|
    ensures |row| == k
  {
    if k == 0 then []
    else
      var done := Recon(filter, raw, above, n, k - 1);
      done + [ReconByte(filter, raw[k - 1], done, above, n)]
  }

  lemma WrapInverts(x: Byte, p: Byte)
    ensures Wrap(Wrap(x - p) + p) == x
  {
  }

  lemma {:induction false} ReconInverts(filter: nat, row: seq<Byte>, above: seq<Byte>, n: nat, k: nat)
    requires 1 <= n && k <= |row| == |above|
    ensures Recon(filter, FilterLine(filter, row, above, n), above, n, k) == row[..k]
    decreases k
  {
    hide Predict, Wrap;
    if k > 0 {
      ReconInverts(filter, row, above, n, k - 1);
      var left := if k - 1 < n then 0 else row[k - 1 - n];
      WrapInverts(row[k - 1], Predict(filter, left, above[k - 1], Left(above, k - 1, n)));
      assert row[..k] == row[..k - 1] + [row[k - 1]];
    }
  }

  // ----- images -----

  type Rows = seq<seq<Byte>>

  /** The row above row j; above the first there is a row of zeros. */
  function Above(rows: Rows, j: nat, w: nat): seq<Byte>
    requires j <= |rows|
  {
    if j == 0 then seq(w, k => 0) else rows[j - 1]
  }

  ghost predicate Rectangular(rows: Rows, w: nat)
  {
    forall j :: 0 <= j < |rows| ==> |rows[j]| == w
  }

  /** Where row j starts among rows that take up size bytes each. */
  function At(j: nat, size: nat): nat
  {
    if j == 0 then 0 else At(j - 1, size) + size
  }

  lemma {:induction false} AtIsProduct(j: nat, size: nat)
    ensures At(j, size) == j * size
  {
    if j > 0 { AtIsProduct(j - 1, size); }
  }

  lemma {:induction false} AtGrows(i: nat, j: nat, size: nat)
    requires i <= j
    ensures At(i, size) <= At(j, size)
    ensures i < j ==> At(i, size) + size <= At(j, size)
  {
    if i < j { AtGrows(i, j - 1, size); }
  }

  /** A filtered row behind its filter type. */
  function EncodeRow(rows: Rows, filters: seq<Byte>, w: nat, n: nat, j: nat): (line: seq<Byte>)
    requires 1 <= n && j < |rows| == |filters| && Rectangular(rows, w)
    ensures |line| == w + 1
  {
    [filters[j]] + FilterLine(filters[j], rows[j], Above(rows, j, w), n)
  }

  /** The first y rows, encoded. */
  function EncodeImage(rows: Rows, filters: seq<Byte>, w: nat, n: nat, y: nat): (data: seq<Byte>)
    requires 1 <= n && y <= |rows| == |filters| && Rectangular(rows, w)
    ensures |data| == At(y, w + 1)
  {
    if y == 0 then [] else EncodeImage(rows, filters, w, n, y - 1) + EncodeRow(rows, filters, w, n, y - 1)
  }

  /** The encoding of the first y rows does not depend on the others. */
  lemma {:induction false} EncodePrefix(rows: Rows, filters: seq<Byte>, row: seq<Byte>, filter: Byte,
                                        w: nat, n: nat, y: nat)
    requires 1 <= n && y <= |rows| == |filters| && Rectangular(rows, w) && |row| == w
    ensures EncodeImage(rows + [row], filters + [filter], w, n, y) == EncodeImage(rows, filters, w, n, y)
    decreases y
  {
    if y > 0 {
      EncodePrefix(rows, filters, row, filter, w, n, y - 1);
    }
  }

  datatype Image = Image(rows: Rows) | InvalidFilter | NotEnoughPixels

  /** The first y rows, reconstructed, unless a filter type is out of range. */
  function DecodeRows(raw: seq<Byte>, w: nat, n: nat, y: nat): (image: Image)
    requires 1 <= n && |raw| >= At(y, w + 1)
    ensures image.Image? ==> |image.rows| == y && Rectangular(image.rows, w)
    ensures image.Image? || image.InvalidFilter?
  {
    if y == 0 then Image([])
    else
      var image := DecodeRows(raw, w, n, y - 1);
      var at := At(y - 1, w + 1);
      if image.InvalidFilter? || raw[at] > 4 then InvalidFilter
      else Image(image.rows + [Recon(raw[at], raw[at + 1..at + 1 + w], Above(image.rows, y - 1, w), n, w)])
  }

  function DecodeImage(raw: seq<Byte>, w: nat, n: nat, y: nat): Image
    requires 1 <= n
  {
    if |raw| < At(y, w + 1) then NotEnoughPixels else DecodeRows(raw, w, n, y)
  }

  lemma {:induction false} EncodedRowAt(rows: Rows, filters: seq<Byte>, w: nat, n: nat, y: nat, j: nat)
    requires 1 <= n && j < y <= |rows| == |filters| && Rectangular(rows, w)
    ensures At(j, w + 1) + w + 1 <= At(y, w + 1)
    ensures EncodeImage(rows, filters, w, n, y)[At(j, w + 1)..At(j, w + 1) + w + 1]
      == EncodeRow(rows, filters, w, n, j)
    decreases y
  {
    var data := EncodeImage(rows, filters, w, n, y);
    var before := EncodeImage(rows, filters, w, n, y - 1);
    if j < y - 1 {
      EncodedRowAt(rows, filters, w, n, y - 1, j);
      assert data[At(j, w + 1)..At(j, w + 1) + w + 1] == before[At(j, w + 1)..At(j, w + 1) + w + 1];
    } else {
      assert data[|before|..] == EncodeRow(rows, filters, w, n, j);
    }
  }

  /** The layout of the data: at j * (w + 1) the filter type of row j, and behind it the row. */
  lemma EncodedAt(rows: Rows, filters: seq<Byte>, w: nat, n: nat, y: nat, j: nat, i: nat)
    requires 1 <= n && j < y <= |rows| == |filters| && Rectangular(rows, w) && i < w
    ensures j * (w + 1) + 1 + i < |EncodeImage(rows, filters, w, n, y)|
    ensures var data := EncodeImage(rows, filters, w, n, y);
      && data[j * (w + 1)] == filters[j]
      && data[j * (w + 1) + 1 + i] == FilterByte(filters[j], rows[j], Above(rows, j, w), n, i)
  {
    hide EncodeImage, At, Predict, Wrap, Above;
    var data, at := EncodeImage(rows, filters, w, n, y), At(j, w + 1);
    EncodedRowAt(rows, filters, w, n, y, j);
    AtIsProduct(j, w + 1);
    var line := data[at..at + w + 1];
    assert line[0] == data[at] && line[1 + i] == data[at + 1 + i];
  }

  /** The bytes of a reconstructed row, in the words of section 9.2. */
  lemma {:induction false} ReconAt(filter: nat, raw: seq<Byte>, above: seq<Byte>, n: nat, k: nat, i: nat)
    requires 1 <= n && i < k <= |raw| == |above|
    ensures var row := Recon(filter, raw, above, n, k);
      row[i] == Wrap(raw[i] + Predict(filter, Left(row, i, n), above[i], Left(above, i, n)))
    decreases k
  {
    if i < k - 1 { ReconAt(filter, raw, above, n, k - 1, i); }
  }

  /** The pixels of the image: every byte is the one in the data plus the prediction from its left,
      upper and upper-left neighbours. */
  predicate PixelOk(raw: seq<Byte>, w: nat, n: nat, rows: Rows, j: nat, i: nat)
    requires 1 <= n && j < |rows| && i < w && |rows[j]| == w && (j > 0 ==> |rows[j - 1]| == w)
  {
    var at, above := j * (w + 1), Above(rows, j, w);
    && at + 1 + i < |raw| && raw[at] <= 4
    && rows[j][i] == Wrap(raw[at + 1 + i] + Predict(raw[at], Left(rows[j], i, n), above[i], Left(above, i, n)))
  }

  lemma {:induction false} PixelAt(raw: seq<Byte>, w: nat, n: nat, y: nat, j: nat, i: nat)
    requires 1 <= n && |raw| >= At(y, w + 1) && j < y && i < w && DecodeRows(raw, w, n, y).Image?
    ensures PixelOk(raw, w, n, DecodeRows(raw, w, n, y).rows, j, i)
    decreases y
  {
    hide Recon, Predict, Wrap, At, Left;
    AtGrows(y - 1, y, w + 1);
    var before := DecodeRows(raw, w, n, y - 1);
    if j < y - 1 {
      PixelAt(raw, w, n, y - 1, j, i);
    } else {
      LastRowPixel(raw, w, n, j, i);
    }
  }

  lemma LastRowPixel(raw: seq<Byte>, w: nat, n: nat, j: nat, i: nat)
    requires 1 <= n && |raw| >= At(j + 1, w + 1) && i < w && DecodeRows(raw, w, n, j + 1).Image?
    ensures PixelOk(raw, w, n, DecodeRows(raw, w, n, j + 1).rows, j, i)
  {
    hide Recon, Predict, Wrap, Left;
    AtIsProduct(j, w + 1);
    var at, before := At(j, w + 1), DecodeRows(raw, w, n, j);
    ReconAt(raw[at], raw[at + 1..at + 1 + w], Above(before.rows, j, w), n, w, i);
  }

  /** Where the encoded row stands in the data, reconstruction finds the row. */
  lemma RowRoundTrip(rows: Rows, filters: seq<Byte>, w: nat, n: nat, j: nat, raw: seq<Byte>)
    requires 1 <= n && j < |rows| == |filters| && Rectangular(rows, w) && HoldsRow(raw, rows, filters, w, n, j)
    ensures var at := At(j, w + 1);
      && at + w + 1 <= |raw| && raw[at] == filters[j]
      && Recon(raw[at], raw[at + 1..at + 1 + w], Above(rows, j, w), n, w) == rows[j]
  {
    hide Predict, Wrap, Recon, At;
    var at := At(j, w + 1);
    var line := raw[at..at + w + 1];
    assert raw[at] == line[0] && raw[at + 1..at + 1 + w] == line[1..];
    ReconInverts(filters[j], rows[j], Above(rows, j, w), n, w);
  }

  /** The raw data holds, one after the other, the encoded rows. */
  ghost predicate Holds(raw: seq<Byte>, rows: Rows, filters: seq<Byte>, w: nat, n: nat)
    requires 1 <= n && |rows| == |filters| && Rectangular(rows, w)
  {
    |raw| >= At(|rows|, w + 1) && forall j :: 0 <= j < |rows| ==> HoldsRow(raw, rows, filters, w, n, j)
  }

  predicate HoldsRow(raw: seq<Byte>, rows: Rows, filters: seq<Byte>, w: nat, n: nat, j: nat)
    requires 1 <= n && j < |rows| == |filters| && Rectangular(rows, w)
  {
    var at := At(j, w + 1);
    at + w + 1 <= |raw| && raw[at..at + w + 1] == EncodeRow(rows, filters, w, n, j)
  }

  lemma EncodingHolds(rows: Rows, filters: seq<Byte>, w: nat, n: nat, extra: seq<Byte>)
    requires 1 <= n && |rows| == |filters| && Rectangular(rows, w)
    ensures Holds(EncodeImage(rows, filters, w, n, |rows|) + extra, rows, filters, w, n)
  {
    var data := EncodeImage(rows, filters, w, n, |rows|);
    forall j | 0 <= j < |rows| ensures HoldsRow(data + extra, rows, filters, w, n, j) {
      EncodedRowAt(rows, filters, w, n, |rows|, j);
      assert (data + extra)[At(j, w + 1)..At(j, w + 1) + w + 1] == data[At(j, w + 1)..At(j, w + 1) + w + 1];
    }
  }

  lemma NextRow(raw: seq<Byte>, w: nat, n: nat, rows: Rows, j: nat)
    requires 1 <= n && j < |rows| && Rectangular(rows, w) && |raw| >= At(j + 1, w + 1)
    requires DecodeRows(raw, w, n, j) == Image(rows[..j])
    requires var at := At(j, w + 1);
      raw[at] <= 4 && Recon(raw[at], raw[at + 1..at + 1 + w], Above(rows, j, w), n, w) == rows[j]
    ensures DecodeRows(raw, w, n, j + 1) == Image(rows[..j + 1])
  {
    assert Above(rows[..j], j, w) == Above(rows, j, w);
    assert rows[..j + 1] == rows[..j] + [rows[j]];
  }

  lemma NoRows(raw: seq<Byte>, w: nat, n: nat)
    requires 1 <= n
    ensures At(0, w + 1) == 0 && DecodeRows(raw, w, n, 0) == Image([])
  {
  }

  lemma {:induction false} RowsRoundTrip(rows: Rows, filters: seq<Byte>, w: nat, n: nat, y: nat, raw: seq<Byte>)
    requires 1 <= n && y <= |rows| == |filters| && Rectangular(rows, w)
    requires forall j :: 0 <= j < |filters| ==> filters[j] <= 4
    requires Holds(raw, rows, filters, w, n)
    ensures |raw| >= At(y, w + 1)
    ensures DecodeRows(raw, w, n, y) == Image(rows[..y])
    decreases y
  {
    hide Recon, HoldsRow, Above, At;
    AtGrows(y, |rows|, w + 1);
    if y == 0 {
      NoRows(raw, w, n);
    } else {
      var j := y - 1;
      RowsRoundTrip(rows, filters, w, n, j, raw);
      assert HoldsRow(raw, rows, filters, w, n, j);
      RowRoundTrip(rows, filters, w, n, j, raw);
      NextRow(raw, w, n, rows, j);
    }
  }

  /** Whatever filter was chosen for each row, the pixels come back; bytes after the last row
      do not matter. */
  lemma ImageRoundTrip(rows: Rows, filters: seq<Byte>, w: nat, n: nat, extra: seq<Byte>)
    requires 1 <= n && |rows| == |filters| && Rectangular(rows, w)
    requires forall j :: 0 <= j < |filters| ==> filters[j] <= 4
    ensures DecodeImage(EncodeImage(rows, filters, w, n, |rows|) + extra, w, n, |rows|) == Image(rows)
  {
    EncodingHolds(rows, filters, w, n, extra);
    RowsRoundTrip(rows, filters, w, n, |rows|, EncodeImage(rows, filters, w, n, |rows|) + extra);
    assert rows[..|rows|] == rows;
  }
}
