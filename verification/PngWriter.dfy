// The filtering half of the PNG writer in _3rd/stb/stb_image_write.h.
module PngWriter {
  import opened Base
  import opened PngFilter

  /** stbiw__paeth, which follows the specification. */
  function PaethByDistance(a: int, b: int, c: int): Byte
  {
    var p := a + b - c;
    var pa, pb, pc := Abs(p - a), Abs(p - b), Abs(p - c);
    if pa <= pb && pa <= pc then Wrap(a)
    else if pb <= pc then Wrap(b)
    else Wrap(c)
  }

  /** The row whose pixels start at z. */
  function RowAt(pixels: seq<Byte>, z: nat, w: nat): (row: seq<Byte>)
    requires z + w <= |pixels|
    ensures |row| == w
  {
    pixels[z..z + w]
  }

  /** The row above it, or zeros. */
  function RowAbove(pixels: seq<Byte>, stride: nat, z: nat, first: bool, w: nat): (row: seq<Byte>)
    requires z + w <= |pixels| && (!first ==> stride <= z)
    ensures |row| == w
  {
    if first then seq(w, k => 0) else RowAt(pixels, z - stride, w)
  }

  /** Filter types for the first row that do without a row above. */
  function FirstMap(filter: nat): nat
    requires filter < 5
  {
    if filter == 2 then 0 else if filter == 3 then 5 else if filter == 4 then 6 else filter
  }

  function Kind(filter: nat, first: bool): nat
    requires filter < 5
  {
    if first then FirstMap(filter) else filter
  }

  predicate LooksUp(kind: nat) { 2 <= kind <= 4 }

  /** A byte of the first pixel of the row at z. */
  function FirstPixel(pixels: seq<Byte>, stride: nat, z: nat, kind: nat, i: nat): Byte
    requires z + i < |pixels| && (LooksUp(kind) ==> stride <= z)
  {
    var x: int := pixels[z + i];
    if !LooksUp(kind) then Wrap(x)
    else
      var up: int := pixels[z + i - stride];
      if kind == 2 then Wrap(x - up)
      else if kind == 3 then Wrap(x - up / 2)
      else Wrap(x - PaethByDistance(0, up, 0))
  }

  /** A byte of a later pixel. */
  function LaterPixel(pixels: seq<Byte>, stride: nat, z: nat, n: nat, kind: nat, i: nat): Byte
    requires z + i < |pixels| && n <= i && (LooksUp(kind) ==> stride <= z)
  {
    var x: int := pixels[z + i];
    var left: int := pixels[z + i - n];
    if LooksUp(kind) then
      var up: int := pixels[z + i - stride];
      if kind == 2 then Wrap(x - up)
      else if kind == 3 then Wrap(x - (left + up) / 2)
      else Wrap(x - PaethByDistance(left, up, pixels[z + i - stride - n]))
    else if kind == 1 then Wrap(x - left)
    else if kind == 5 then Wrap(x - left / 2)
    else if kind == 6 then Wrap(x - PaethByDistance(left, 0, 0))
    else Wrap(x)
  }

  lemma FirstPixelIsFiltered(pixels: seq<Byte>, stride: nat, z: nat, first: bool, w: nat, n: nat, filter: nat, i: nat)
    requires z + w <= |pixels| && i < n <= w && filter < 5 && (!first ==> stride <= z)
    ensures FirstPixel(pixels, stride, z, Kind(filter, first), i)
      == FilterByte(filter, RowAt(pixels, z, w), RowAbove(pixels, stride, z, first, w), n, i)
  {
  }

  /** stbiw__paeth is the predictor of the specification. */
  lemma PaethIsByDistance(a: Byte, b: Byte, c: Byte)
    ensures PaethByDistance(a, b, c) == Paeth(a, b, c)
  {
  }

  lemma LaterPixelIsFiltered(pixels: seq<Byte>, stride: nat, z: nat, first: bool, w: nat, n: nat, filter: nat, i: nat)
    requires z + w <= |pixels| && 1 <= n <= i < w && filter < 5 && (!first ==> stride <= z)
    ensures LaterPixel(pixels, stride, z, n, Kind(filter, first), i)
      == FilterByte(filter, RowAt(pixels, z, w), RowAbove(pixels, stride, z, first, w), n, i)
  {
    hide Paeth, PaethByDistance;
    var row, above := RowAt(pixels, z, w), RowAbove(pixels, stride, z, first, w);
    PaethIsByDistance(row[i - n], above[i], above[i - n]);
  }

  lemma RowOffset(stride: nat, y: nat)
    ensures stride * y >= 0 && (y > 0 ==> stride <= stride * y)
  {
    if y > 0 { assert stride * y == stride * (y - 1) + stride; }
  }

  lemma WidthInBytes(width: nat, n: nat)
    requires 1 <= width
    ensures n <= width * n
  {
    assert width * n == (width - 1) * n + n;
  }

  /** Row y, filtered. */
  ghost function Filtered(pixels: seq<Byte>, stride: nat, y: nat, w: nat, n: nat, filter: nat): (line: seq<Byte>)
    requires 1 <= n && stride * y + w <= |pixels|
    ensures |line| == w
  {
    RowOffset(stride, y);
    FilterLine(filter, RowAt(pixels, stride * y, w), RowAbove(pixels, stride, stride * y, y == 0, w), n)
  }

  /** stbiw__encode_png_line: the line buffer becomes the filtered row. */
  method EncodeLine(pixels: seq<Byte>, stride: nat, width: nat, y: nat, n: nat, filter: nat, line: array<Byte>)
    requires 1 <= n && 1 <= width && filter < 5
    requires line.Length == width * n && stride * y + width * n <= |pixels|
    modifies line
    ensures line[..] == Filtered(pixels, stride, y, width * n, n, filter)
  {
    var w := width * n;
    var z := stride * y;
    RowOffset(stride, y);
    WidthInBytes(width, n);
    ghost var filtered := Filtered(pixels, stride, y, w, n, filter);
    var kind := Kind(filter, y == 0);
    if kind == 0 {
      forall i | 0 <= i < w {
        line[i] := pixels[z + i];
      }
      assert line[..] == filtered;
      return;
    }
    for i := 0 to n
      invariant line[..i] == filtered[..i]
    {
      FirstPixelIsFiltered(pixels, stride, z, y == 0, w, n, filter, i);
      line[i] := FirstPixel(pixels, stride, z, kind, i);
    }
    for i := n to w
      invariant line[..i] == filtered[..i]
    {
      LaterPixelIsFiltered(pixels, stride, z, y == 0, w, n, filter, i);
      line[i] := LaterPixel(pixels, stride, z, n, kind, i);
    }
    assert line[..] == line[..w] && filtered == filtered[..w];
  }

  // ----- the row loop of stbi_write_png_to_mem -----

  function RowsOf(pixels: seq<Byte>, stride: nat, w: nat, y: nat): (rows: Rows)
    requires forall j :: 0 <= j < y ==> stride * j + w <= |pixels|
    ensures |rows| == y && Rectangular(rows, w)
  {
    seq(y, j requires 0 <= j < y => RowAt(pixels, stride * j, w))
  }

  /** The estimate of a row's entropy: bytes count by their distance from zero. */
  function Cost(line: seq<Byte>): nat
  {
    if line == [] then 0 else Cost(line[..|line| - 1]) + Abs(Signed(line[|line| - 1]))
  }

  /** Conversion to signed char. */
  function Signed(b: Byte): int { if b < 128 then b else b - 256 }

  /** A byte counts by its distance from zero, going down or going round. */
  lemma SignedIsDistance(b: Byte)
    ensures Abs(Signed(b)) == if b <= 256 - b then b else 256 - b
  {
  }

  const INT_MAX: nat := 0x7FFF_FFFF

  method LineCost(line: array<Byte>) returns (est: nat)
    ensures est == Cost(line[..])
  {
    est := 0;
    for i := 0 to line.Length
      invariant est == Cost(line[..i])
    {
      assert line[..i + 1][..i] == line[..i];
      est := est + Abs(Signed(line[i]));
    }
    assert line[..line.Length] == line[..];
  }

  /** The cost of row j under a filter. */
  ghost function CostOf(pixels: seq<Byte>, stride: nat, j: nat, w: nat, n: nat, filter: nat): nat
    requires 1 <= n && stride * j + w <= |pixels|
  {
    Cost(Filtered(pixels, stride, j, w, n, filter))
  }

  /** No filter costs less, and no earlier one as little. */
  ghost predicate Cheapest(pixels: seq<Byte>, stride: nat, j: nat, w: nat, n: nat, filter: nat)
    requires 1 <= n && stride * j + w <= |pixels|
  {
    && filter < 5
    && forall f :: 0 <= f < 5 ==>
         && CostOf(pixels, stride, j, w, n, filter) <= CostOf(pixels, stride, j, w, n, f)
         && (f < filter ==> CostOf(pixels, stride, j, w, n, filter) < CostOf(pixels, stride, j, w, n, f))
  }

  /** The estimates for row j, which only grow while they are summed up, are ints. */
  ghost predicate EstimatesFit(pixels: seq<Byte>, stride: nat, j: nat, w: nat, n: nat)
    requires 1 <= n && stride * j + w <= |pixels|
  {
    forall f :: 0 <= f < 5 ==> CostOf(pixels, stride, j, w, n, f) <= INT_MAX
  }

  lemma {:induction false} CostIsBounded(line: seq<Byte>)
    ensures Cost(line) <= 128 * |line|
  {
    if line != [] { CostIsBounded(line[..|line| - 1]); }
  }

  /** So they are for every row of at most 16777215 bytes, whatever is in it. */
  lemma NarrowRowsFit(pixels: seq<Byte>, stride: nat, j: nat, w: nat, n: nat)
    requires 1 <= n && stride * j + w <= |pixels| && w <= 16_777_215
    ensures EstimatesFit(pixels, stride, j, w, n)
  {
    hide Filtered;
    forall f | 0 <= f < 5 ensures CostOf(pixels, stride, j, w, n, f) <= INT_MAX {
      CostIsBounded(Filtered(pixels, stride, j, w, n, f));
    }
  }

  /** Filters the row into the line buffer and estimates its entropy. */
  method TryFilter(pixels: seq<Byte>, stride: nat, x: nat, j: nat, n: nat, filter: nat, line: array<Byte>)
      returns (est: nat)
    requires 1 <= n && 1 <= x && line.Length == x * n && stride * j + x * n <= |pixels|
    requires filter < 5
    modifies line
    ensures line[..] == Filtered(pixels, stride, j, x * n, n, filter)
    ensures est == CostOf(pixels, stride, j, x * n, n, filter)
  {
    hide Filtered, Cost;
    EncodeLine(pixels, stride, x, j, n, filter, line);
    est := LineCost(line);
  }

  /** Tries all filters; the line buffer ends up filtered with the cheapest one. */
  method ChooseFilter(pixels: seq<Byte>, stride: nat, x: nat, j: nat, n: nat, line: array<Byte>)
      returns (filter: nat)
    requires 1 <= n && 1 <= x && line.Length == x * n && stride * j + x * n <= |pixels|
    requires EstimatesFit(pixels, stride, j, x * n, n)
    modifies line
    ensures filter < 5 && line[..] == Filtered(pixels, stride, j, x * n, n, filter)
    ensures Cheapest(pixels, stride, j, x * n, n, filter)
  {
    hide Filtered, CostOf;
    var best, bestCost := 0, INT_MAX;
    ghost var w := x * n;
    filter := 0;
    while filter < 5
      invariant filter <= 5 && best < 5
      invariant if filter == 0 then bestCost == INT_MAX else bestCost == CostOf(pixels, stride, j, w, n, best)
      invariant forall f :: 0 <= f < filter ==> bestCost <= CostOf(pixels, stride, j, w, n, f)
      invariant forall f :: 0 <= f < best ==> bestCost < CostOf(pixels, stride, j, w, n, f)
    {
      var est := TryFilter(pixels, stride, x, j, n, filter, line);
      if est < bestCost {
        bestCost, best := est, filter;
      }
      filter := filter + 1;
    }
    if filter != best {
      EncodeLine(pixels, stride, x, j, n, best, line);
      filter := best;
    }
  }

  /** A row of the pixels, filtered, is the row of the image, filtered. */
  lemma FilteredInImage(pixels: seq<Byte>, stride: nat, w: nat, n: nat, y: nat, j: nat, filter: nat)
    requires 1 <= n && j < y && forall j :: 0 <= j < y ==> stride * j + w <= |pixels|
    ensures var rows := RowsOf(pixels, stride, w, y);
      Filtered(pixels, stride, j, w, n, filter) == FilterLine(filter, rows[j], Above(rows, j, w), n)
  {
    RowOffset(stride, j);
    if j > 0 { assert stride * j - stride == stride * (j - 1); }
    var rows := RowsOf(pixels, stride, w, y);
    assert RowAbove(pixels, stride, stride * j, j == 0, w) == Above(rows, j, w);
  }

  /** One more row, written behind its filter type. */
  lemma RowAppended(rows: Rows, filters: seq<Byte>, w: nat, n: nat, j: nat, filter: Byte, line: seq<Byte>)
    requires 1 <= n && j < |rows| && |filters| == j && Rectangular(rows, w)
    requires line == FilterLine(filter, rows[j], Above(rows, j, w), n)
    ensures EncodeImage(rows[..j + 1], filters + [filter], w, n, j + 1)
      == EncodeImage(rows[..j], filters, w, n, j) + [filter] + line
  {
    assert rows[..j + 1] == rows[..j] + [rows[j]];
    EncodePrefix(rows[..j], filters, rows[j], filter, w, n, j);
    assert Above(rows[..j + 1], j, w) == Above(rows, j, w);
  }

  function Stride(strideBytes: nat, w: nat): nat { if strideBytes == 0 then w else strideBytes }

  /** Row j needs no estimates, because the filter is forced, or they are ints. */
  ghost predicate RowFits(pixels: seq<Byte>, stride: nat, w: nat, n: nat, force: int, j: nat)
    requires 1 <= n && stride * j + w <= |pixels|
  {
    0 <= force < 5 || EstimatesFit(pixels, stride, j, w, n)
  }

  /** Which filter a row gets: the forced one, or the first of the cheapest. */
  ghost predicate Chosen(pixels: seq<Byte>, stride: nat, w: nat, n: nat, force: int, j: nat, filter: nat)
    requires 1 <= n && stride * j + w <= |pixels|
  {
    && filter < 5
    && if 0 <= force < 5 then filter == force else Cheapest(pixels, stride, j, w, n, filter)
  }

  /** One turn of the row loop: choose a filter and filter the row. */
  method FilterRow(pixels: seq<Byte>, stride: nat, x: nat, j: nat, n: nat, force: int, line: array<Byte>)
      returns (filter: nat)
    requires 1 <= n && 1 <= x && line.Length == x * n && stride * j + x * n <= |pixels|
    requires RowFits(pixels, stride, x * n, n, force, j) && force < 5
    modifies line
    ensures Chosen(pixels, stride, x * n, n, force, j, filter)
    ensures line[..] == Filtered(pixels, stride, j, x * n, n, filter)
  {
    if force > -1 {
      filter := force;
      EncodeLine(pixels, stride, x, j, n, force, line);
    } else {
      filter := ChooseFilter(pixels, stride, x, j, n, line);
    }
  }

  /** The filter type and the line buffer go into the data. */
  method WriteRow(filt: array<Byte>, at: nat, filter: Byte, line: array<Byte>)
    requires at + 1 + line.Length <= filt.Length && filt != line
    modifies filt
    ensures filt[..at + 1 + line.Length] == old(filt[..at]) + [filter] + line[..]
  {
    filt[at] := filter;
    forall i | 0 <= i < line.Length {
      filt[at + 1 + i] := line[i];
    }
  }

  /** One turn of the row loop: row j is filtered and written behind its filter type. */
  method AppendRow(pixels: seq<Byte>, stride: nat, x: nat, j: nat, n: nat, force: int,
                   line: array<Byte>, filt: array<Byte>, ghost y: nat, ghost filters: seq<Byte>)
      returns (filter: Byte)
    requires 1 <= n && 1 <= x && line.Length == x * n && force < 5
    requires j < y && forall j :: 0 <= j < y ==> stride * j + x * n <= |pixels|
    requires RowFits(pixels, stride, x * n, n, force, j)
    requires line != filt && filt.Length == At(y, x * n + 1) && |filters| == j
    requires At(j, x * n + 1) <= filt.Length
    requires filt[..At(j, x * n + 1)] == EncodeImage(RowsOf(pixels, stride, x * n, y)[..j], filters, x * n, n, j)
    modifies line, filt
    ensures Chosen(pixels, stride, x * n, n, force, j, filter)
    ensures At(j + 1, x * n + 1) <= filt.Length
    ensures filt[..At(j + 1, x * n + 1)]
      == EncodeImage(RowsOf(pixels, stride, x * n, y)[..j + 1], filters + [filter], x * n, n, j + 1)
  {
    hide Chosen, EncodeImage, FilterLine, Filtered;
    ghost var w := x * n;
    ghost var rows := RowsOf(pixels, stride, w, y);
    filter := FilterRow(pixels, stride, x, j, n, force, line);
    FilteredInImage(pixels, stride, w, n, y, j, filter);
    RowAppended(rows, filters, w, n, j, filter, line[..]);
    AtIsProduct(j, w + 1);
    AtGrows(j + 1, y, w + 1);
    WriteRow(filt, j * (x * n + 1), filter, line);
  }

  method EncodeRows(pixels: seq<Byte>, stride: nat, x: nat, y: nat, n: nat, force: int,
                    line: array<Byte>, filt: array<Byte>) returns (filters: seq<Byte>)
    requires 1 <= n && 1 <= x && line.Length == x * n && force < 5
    requires forall j :: 0 <= j < y ==> stride * j + x * n <= |pixels| && RowFits(pixels, stride, x * n, n, force, j)
    requires line != filt && filt.Length == At(y, x * n + 1)
    modifies line, filt
    ensures |filters| == y
    ensures forall j :: 0 <= j < y ==> Chosen(pixels, stride, x * n, n, force, j, filters[j])
    ensures filt[..] == EncodeImage(RowsOf(pixels, stride, x * n, y), filters, x * n, n, y)
  {
    hide Chosen, EstimatesFit, EncodeImage;
    ghost var rows := RowsOf(pixels, stride, x * n, y);
    filters := [];
    for j := 0 to y
      invariant |filters| == j
      invariant forall i :: 0 <= i < j ==> Chosen(pixels, stride, x * n, n, force, i, filters[i])
      invariant At(j, x * n + 1) <= filt.Length
      invariant filt[..At(j, x * n + 1)] == EncodeImage(rows[..j], filters, x * n, n, j)
    {
      var filter := AppendRow(pixels, stride, x, j, n, force, line, filt, y, filters);
      filters := filters + [filter];
    }
    assert rows[..y] == rows && filt[..filt.Length] == filt[..];
  }

  /** The row loop: what goes into the compressor is the encoded image, with the forced filter
      or for each row the cheapest one. */
  method FilterRows(pixels: seq<Byte>, strideBytes: nat, x: nat, y: nat, n: nat, forced: int)
      returns (filt: array<Byte>, filters: seq<Byte>)
    requires 1 <= n && 1 <= x
    requires forall j :: 0 <= j < y ==>
      && Stride(strideBytes, x * n) * j + x * n <= |pixels|
      && RowFits(pixels, Stride(strideBytes, x * n), x * n, n, forced, j)
    ensures |filters| == y && forall j :: 0 <= j < y ==>
      Chosen(pixels, Stride(strideBytes, x * n), x * n, n, forced, j, filters[j])
    ensures filt[..] == EncodeImage(RowsOf(pixels, Stride(strideBytes, x * n), x * n, y), filters, x * n, n, y)
  {
    var force := if forced >= 5 then -1 else forced;
    AtIsProduct(y, x * n + 1);
    filt := new Byte[y * (x * n + 1)](_ => 0);
    var line := new Byte[x * n](_ => 0);
    filters := EncodeRows(pixels, Stride(strideBytes, x * n), x, y, n, force, line, filt);
  }
}
