// The unfiltering half of the PNG reader in _3rd/stb/stb_image.h, for 8-bit samples without
// added channels.
module PngReader {
  import opened Base
  import opened PngFilter
  import W = PngWriter

  /** stbi__paeth: no distances, a threshold instead. */
  function PaethByThreshold(a: int, b: int, c: int): int
  {
    var threshold := c * 3 - (a + b);
    var lo := if a < b then a else b;
    var hi := if a < b then b else a;
    var t0 := if hi <= threshold then lo else c;
    if threshold <= lo then hi else t0
  }

  /** The writer's predictor, the reader's and the specification's are one function. */
  lemma PaethsAgree(a: Byte, b: Byte, c: Byte)
    ensures PaethByThreshold(a, b, c) == Paeth(a, b, c) == W.PaethByDistance(a, b, c)
  {
  }

  /** Filter types for the first row that do not look at the row above; 5 is avg_first. */
  function FirstRowFilter(filter: nat): nat
    requires filter <= 4
  {
    if filter == 2 then 0 else if filter == 3 then 5 else if filter == 4 then 1 else filter
  }

  /** The two halves of the workspace. */
  predicate Halves(buf: array<Byte>, cur: nat, prior: nat, nk: nat)
  {
    buf.Length == 2 * nk && ((cur == 0 && prior == nk) || (cur == nk && prior == 0))
  }

  /** The macro STBI__BYTECAST on a sum. */
  function Plus(x: int, y: int): Byte { Wrap(x + y) }

  /** cur[k] = value, where value is the next byte of the reconstruction. */
  method Put(buf: array<Byte>, cur: nat, prior: nat, k: nat, value: Byte,
             ghost filter: nat, ghost line: seq<Byte>, ghost above: seq<Byte>, ghost n: nat)
    requires Halves(buf, cur, prior, |line|) && 1 <= n && k < |line| == |above|
    requires buf[cur..cur + k] == Recon(filter, line, above, n, k)
    requires value == ReconByte(filter, line[k], buf[cur..cur + k], above, n)
    modifies buf
    ensures buf[cur..cur + k + 1] == Recon(filter, line, above, n, k + 1)
    ensures buf[prior..prior + |line|] == old(buf[prior..prior + |line|])
  {
    buf[cur + k] := value;
    assert buf[cur..cur + k + 1] == buf[cur..cur + k] + [value];
  }

  method Copy(buf: array<Byte>, cur: nat, prior: nat, line: seq<Byte>, n: nat, ghost above: seq<Byte>)
    requires Halves(buf, cur, prior, |line|) && 1 <= n && |above| == |line|
    modifies buf
    ensures buf[cur..cur + |line|] == Recon(0, line, above, n, |line|)
  {
    for k := 0 to |line|
      invariant buf[cur..cur + k] == Recon(0, line, above, n, k)
    {
      Put(buf, cur, prior, k, line[k], 0, line, above, n);
    }
  }

  /** memcpy(cur, raw, filter_bytes): the first pixel where neither neighbour row counts. */
  method CopyPixel(buf: array<Byte>, cur: nat, prior: nat, line: seq<Byte>, n: nat,
                   ghost filter: nat, ghost above: seq<Byte>)
    requires Halves(buf, cur, prior, |line|) && 1 <= n <= |line| && |above| == |line|
    requires filter == 1 || (filter == 3 && above == seq(|line|, k => 0))
    modifies buf
    ensures buf[cur..cur + n] == Recon(filter, line, above, n, n)
  {
    for k := 0 to n
      invariant buf[cur..cur + k] == Recon(filter, line, above, n, k)
    {
      Put(buf, cur, prior, k, line[k], filter, line, above, n);
    }
  }

  method Sub(buf: array<Byte>, cur: nat, prior: nat, line: seq<Byte>, n: nat, ghost above: seq<Byte>)
    requires Halves(buf, cur, prior, |line|) && 1 <= n <= |line| && |above| == |line|
    modifies buf
    ensures buf[cur..cur + |line|] == Recon(1, line, above, n, |line|)
  {
    CopyPixel(buf, cur, prior, line, n, 1, above);
    for k := n to |line|
      invariant buf[cur..cur + k] == Recon(1, line, above, n, k)
    {
      assert buf[cur..cur + k][k - n] == buf[cur + k - n];
      Put(buf, cur, prior, k, Plus(line[k], buf[cur + k - n]), 1, line, above, n);
    }
  }

  method AverageFirst(buf: array<Byte>, cur: nat, prior: nat, line: seq<Byte>, n: nat, ghost above: seq<Byte>)
    requires Halves(buf, cur, prior, |line|) && 1 <= n <= |line|
    requires above == seq(|line|, k => 0)
    modifies buf
    ensures buf[cur..cur + |line|] == Recon(3, line, above, n, |line|)
  {
    hide Recon;
    CopyPixel(buf, cur, prior, line, n, 3, above);
    for k := n to |line|
      invariant buf[cur..cur + k] == Recon(3, line, above, n, k)
    {
      assert buf[cur..cur + k][k - n] == buf[cur + k - n];
      Put(buf, cur, prior, k, Plus(line[k], buf[cur + k - n] / 2), 3, line, above, n);
    }
  }

  method Up(buf: array<Byte>, cur: nat, prior: nat, line: seq<Byte>, n: nat)
    requires Halves(buf, cur, prior, |line|) && 1 <= n
    modifies buf
    ensures buf[cur..cur + |line|] == Recon(2, line, old(buf[prior..prior + |line|]), n, |line|)
  {
    ghost var above := buf[prior..prior + |line|];
    for k := 0 to |line|
      invariant buf[prior..prior + |line|] == above
      invariant buf[cur..cur + k] == Recon(2, line, above, n, k)
    {
      assert above[k] == buf[prior + k];
      Put(buf, cur, prior, k, Plus(line[k], buf[prior + k]), 2, line, above, n);
    }
  }

  /** The first pixel where only the row above counts: all of it, or half. */
  method LookUp(buf: array<Byte>, cur: nat, prior: nat, line: seq<Byte>, n: nat, filter: nat)
    requires Halves(buf, cur, prior, |line|) && 1 <= n <= |line| && 3 <= filter <= 4
    modifies buf
    ensures buf[prior..prior + |line|] == old(buf[prior..prior + |line|])
    ensures buf[cur..cur + n] == Recon(filter, line, old(buf[prior..prior + |line|]), n, n)
  {
    ghost var above := buf[prior..prior + |line|];
    for k := 0 to n
      invariant buf[prior..prior + |line|] == above
      invariant buf[cur..cur + k] == Recon(filter, line, above, n, k)
    {
      assert above[k] == buf[prior + k];
      var up: int := buf[prior + k];
      Put(buf, cur, prior, k, Plus(line[k], if filter == 3 then up / 2 else up), filter, line, above, n);
    }
  }

  method Average(buf: array<Byte>, cur: nat, prior: nat, line: seq<Byte>, n: nat)
    requires Halves(buf, cur, prior, |line|) && 1 <= n <= |line|
    modifies buf
    ensures buf[cur..cur + |line|] == Recon(3, line, old(buf[prior..prior + |line|]), n, |line|)
  {
    hide Recon;
    ghost var above := buf[prior..prior + |line|];
    LookUp(buf, cur, prior, line, n, 3);
    for k := n to |line|
      invariant buf[prior..prior + |line|] == above
      invariant buf[cur..cur + k] == Recon(3, line, above, n, k)
    {
      assert above[k] == buf[prior + k] && buf[cur..cur + k][k - n] == buf[cur + k - n];
      var up: int, left: int := buf[prior + k], buf[cur + k - n];
      Put(buf, cur, prior, k, Plus(line[k], (up + left) / 2), 3, line, above, n);
    }
  }

  lemma PaethByte(raw: Byte, done: seq<Byte>, above: seq<Byte>, n: nat)
    requires 1 <= n <= |done| < |above|
    ensures var k := |done|;
      ReconByte(4, raw, done, above, n) == Plus(raw, PaethByThreshold(done[k - n], above[k], above[k - n]))
  {
    PaethsAgree(done[|done| - n], above[|done|], above[|done| - n]);
  }

  /** cur[k] = raw[k] + paeth(cur[k - n], prior[k], prior[k - n]). */
  method PutPaeth(buf: array<Byte>, cur: nat, prior: nat, k: nat, line: seq<Byte>, n: nat, ghost above: seq<Byte>)
    requires Halves(buf, cur, prior, |line|) && 1 <= n <= k < |line|
    requires buf[prior..prior + |line|] == above && buf[cur..cur + k] == Recon(4, line, above, n, k)
    modifies buf
    ensures buf[prior..prior + |line|] == above && buf[cur..cur + k + 1] == Recon(4, line, above, n, k + 1)
  {
    var left, up, upLeft := buf[cur + k - n], buf[prior + k], buf[prior + k - n];
    assert buf[cur..cur + k][k - n] == left;
    assert above[k] == up && above[k - n] == upLeft;
    PaethByte(line[k], buf[cur..cur + k], above, n);
    Put(buf, cur, prior, k, Plus(line[k], PaethByThreshold(left, up, upLeft)), 4, line, above, n);
  }

  method PaethRow(buf: array<Byte>, cur: nat, prior: nat, line: seq<Byte>, n: nat)
    requires Halves(buf, cur, prior, |line|) && 1 <= n <= |line|
    modifies buf
    ensures buf[cur..cur + |line|] == Recon(4, line, old(buf[prior..prior + |line|]), n, |line|)
  {
    ghost var above := buf[prior..prior + |line|];
    LookUp(buf, cur, prior, line, n, 4);
    for k := n to |line|
      invariant buf[prior..prior + |line|] == above
      invariant buf[cur..cur + k] == Recon(4, line, above, n, k)
    {
      PutPaeth(buf, cur, prior, k, line, n, above);
    }
  }

  /** Under a row of zeros Up is None and Paeth is Sub. */
  lemma {:induction false} FirstRowIsSpecial(line: seq<Byte>, above: seq<Byte>, n: nat, k: nat)
    requires 1 <= n && k <= |line| && above == seq(|line|, k => 0)
    ensures Recon(2, line, above, n, k) == Recon(0, line, above, n, k)
    ensures Recon(4, line, above, n, k) == Recon(1, line, above, n, k)
    decreases k
  {
    if k > 0 { FirstRowIsSpecial(line, above, n, k - 1); }
  }

  /** One row: the current half becomes the reconstruction of the line by its filter type. */
  method ReconstructRow(buf: array<Byte>, cur: nat, prior: nat, line: seq<Byte>, n: nat, filter: nat, first: bool,
                        ghost above: seq<Byte>)
    requires Halves(buf, cur, prior, |line|) && 1 <= n <= |line| && filter <= 4
    requires above == if first then seq(|line|, k => 0) else buf[prior..prior + |line|]
    modifies buf
    ensures buf[cur..cur + |line|] == Recon(filter, line, above, n, |line|)
  {
    if first { FirstRowIsSpecial(line, above, n, |line|); }
    match if first then FirstRowFilter(filter) else filter
    case 0 => Copy(buf, cur, prior, line, n, above);
    case 1 => Sub(buf, cur, prior, line, n, above);
    case 2 => Up(buf, cur, prior, line, n);
    case 3 => Average(buf, cur, prior, line, n);
    case 4 => PaethRow(buf, cur, prior, line, n);
    case _ => AverageFirst(buf, cur, prior, line, n, above);
  }

  // ----- the row loop of stbi__create_png_image_raw -----

  function Flatten(rows: Rows): seq<Byte>
  {
    if rows == [] then [] else Flatten(rows[..|rows| - 1]) + rows[|rows| - 1]
  }

  /** The image is its rows from top to bottom, each from left to right. */
  lemma {:induction false} FlattenAt(rows: Rows, w: nat, j: nat, i: nat)
    requires Rectangular(rows, w) && j < |rows| && i < w
    ensures |Flatten(rows)| == |rows| * w && j * w + i < |rows| * w && Flatten(rows)[j * w + i] == rows[j][i]
    decreases |rows|
  {
    var before := rows[..|rows| - 1];
    FlattenSize(rows, w);
    AtIsProduct(j, w);
    AtIsProduct(|rows|, w);
    AtGrows(j, |rows|, w);
    if j < |before| {
      FlattenAt(before, w, j, i);
    } else {
      FlattenSize(before, w);
      AtIsProduct(|before|, w);
    }
  }

  lemma {:induction false} FlattenSize(rows: Rows, w: nat)
    requires Rectangular(rows, w)
    ensures |Flatten(rows)| == At(|rows|, w)
    decreases |rows|
  {
    if rows != [] { FlattenSize(rows[..|rows| - 1], w); }
  }

  predicate ShowsByte(image: seq<Byte>, rows: Rows, w: nat, j: nat, i: nat)
    requires j < |rows| && i < |rows[j]|
  {
    j * w + i < |image| && image[j * w + i] == rows[j][i]
  }

  /** The image holds these rows: byte i of row j is at j * w + i. */
  ghost predicate Shows(image: seq<Byte>, rows: Rows, w: nat)
    requires Rectangular(rows, w)
  {
    |image| == |rows| * w && forall j, i :: 0 <= j < |rows| && 0 <= i < w ==> ShowsByte(image, rows, w, j, i)
  }

  lemma FlattenShows(rows: Rows, w: nat)
    requires Rectangular(rows, w)
    ensures Shows(Flatten(rows), rows, w)
  {
    FlattenSize(rows, w);
    AtIsProduct(|rows|, w);
    forall j, i | 0 <= j < |rows| && 0 <= i < w ensures ShowsByte(Flatten(rows), rows, w, j, i) {
      FlattenAt(rows, w, j, i);
    }
  }

  datatype Status = Ok | BadFilter | TooShort

  /** The finished rows are in the output, and the last of them in its half of the workspace. */
  ghost predicate Progress(rows: Rows, w: nat, buf: array<Byte>, out: array<Byte>)
    reads buf, out
  {
    var j := |rows|;
    && Rectangular(rows, w) && At(j, w) <= out.Length && out[..At(j, w)] == Flatten(rows)
    && buf.Length == 2 * w
    && (j > 0 ==> buf[Half(j - 1, w)..Half(j - 1, w) + w] == rows[j - 1])
  }

  /** Current and prior half alternate. */
  function Half(j: nat, w: nat): nat { if j % 2 == 1 then w else 0 }

  /** memcpy(dest, cur, x * n) */
  method CopyOut(buf: array<Byte>, cur: nat, w: nat, out: array<Byte>, dest: nat)
    requires buf != out && cur + w <= buf.Length && dest + w <= out.Length
    modifies out
    ensures out[..dest + w] == old(out[..dest]) + buf[cur..cur + w]
  {
    forall i | 0 <= i < w {
      out[dest + i] := buf[cur + i];
    }
  }

  /** The row a line stands for, under the rows above it. */
  function Reconstructed(line: seq<Byte>, filter: nat, n: nat, rows: Rows): (row: seq<Byte>)
    requires 1 <= n && Rectangular(rows, |line|)
    ensures |row| == |line|
  {
    Recon(filter, line, Above(rows, |rows|, |line|), n, |line|)
  }

  /** One turn of the loop, for a filter type in range. */
  method NextRow(line: seq<Byte>, filter: nat, n: nat, j: nat, buf: array<Byte>, out: array<Byte>, ghost rows: Rows)
      returns (ghost row: seq<Byte>)
    requires 1 <= n <= |line| && filter <= 4 && |rows| == j
    requires buf != out && out.Length >= At(j + 1, |line|) && Progress(rows, |line|, buf, out)
    modifies buf, out
    ensures row == Reconstructed(line, filter, n, rows)
    ensures Progress(rows + [row], |line|, buf, out)
  {
    hide Recon;
    var w := |line|;
    ReconstructRow(buf, Half(j, w), Half(j + 1, w), line, n, filter, j == 0, Above(rows, j, w));
    row := buf[Half(j, w)..Half(j, w) + w];
    AtIsProduct(j, w);
    CopyOut(buf, Half(j, w), w, out, j * w);
    assert (rows + [row])[..j] == rows;
  }

  lemma RowDecoded(raw: seq<Byte>, w: nat, n: nat, j: nat, rows: Rows, line: seq<Byte>, row: seq<Byte>)
    requires 1 <= n && |raw| >= At(j + 1, w + 1)
    requires DecodeRows(raw, w, n, j) == Image(rows)
    requires |line| == w && line == raw[At(j, w + 1) + 1..At(j, w + 1) + 1 + w]
    requires raw[At(j, w + 1)] <= 4
    requires |rows| == j && Rectangular(rows, w) && row == Reconstructed(line, raw[At(j, w + 1)], n, rows)
    ensures DecodeRows(raw, w, n, j + 1) == Image(rows + [row])
  {
  }

  /** The same among the raw data. */
  method Turn(raw: seq<Byte>, at: nat, w: nat, n: nat, j: nat, buf: array<Byte>, out: array<Byte>, ghost rows: Rows)
      returns (ghost rows': Rows)
    requires 1 <= n <= w && |rows| == j
    requires |raw| >= At(j + 1, w + 1) && at == At(j, w + 1) && raw[at] <= 4
    requires buf != out && out.Length >= At(j + 1, w) && Progress(rows, w, buf, out)
    requires DecodeRows(raw, w, n, j) == Image(rows)
    modifies buf, out
    ensures DecodeRows(raw, w, n, j + 1) == Image(rows') && |rows'| == j + 1 && Progress(rows', w, buf, out)
  {
    var line := raw[at + 1..at + 1 + w];
    assert |line| == w;
    ghost var row := NextRow(line, raw[at], n, j, buf, out, rows);
    RowDecoded(raw, w, n, j, rows, line, row);
    rows' := rows + [row];
  }

  /** One filter type out of range spoils the image. */
  lemma {:induction false} StaysInvalid(raw: seq<Byte>, w: nat, n: nat, j: nat, y: nat)
    requires 1 <= n && j < y && |raw| >= At(y, w + 1)
    requires At(j, w + 1) < |raw| && raw[At(j, w + 1)] > 4
    ensures DecodeRows(raw, w, n, y).InvalidFilter?
    decreases y
  {
    if j < y - 1 {
      StaysInvalid(raw, w, n, j, y - 1);
    }
  }

  /** The whole image: exactly what the specification reconstructs, or its error. */
  method CreateImageRaw(raw: seq<Byte>, n: nat, x: nat, y: nat) returns (status: Status, out: array<Byte>)
    requires 1 <= n && 1 <= x
    ensures match DecodeImage(raw, x * n, n, y)
            case Image(rows) => status == Ok && Shows(out[..], rows, x * n)
            case InvalidFilter => status == BadFilter
            case NotEnoughPixels => status == TooShort
  {
    var w := x * n;
    W.WidthInBytes(x, n);
    AtIsProduct(y, w);
    AtIsProduct(y, w + 1);
    out := new Byte[y * w](_ => 0);
    if |raw| < y * (w + 1) {
      return TooShort, out;
    }
    status := Rows(raw, w, n, y, out);
  }

  lemma NothingShown(raw: seq<Byte>, w: nat, n: nat)
    requires 1 <= n
    ensures At(0, w) == 0 && At(0, w + 1) == 0 && Flatten([]) == [] && DecodeRows(raw, w, n, 0) == Image([])
  {
  }

  method Rows(raw: seq<Byte>, w: nat, n: nat, y: nat, out: array<Byte>) returns (status: Status)
    requires 1 <= n <= w && |raw| >= At(y, w + 1) && out.Length == At(y, w)
    modifies out
    ensures match DecodeRows(raw, w, n, y)
            case Image(rows) => status == Ok && Shows(out[..], rows, w)
            case InvalidFilter => status == BadFilter
            case NotEnoughPixels => false
  {
    hide Shows, Recon, Reconstructed, Flatten, DecodeRows;
    NothingShown(raw, w, n);
    var buf := new Byte[2 * w](_ => 0);
    var at := 0;
    ghost var rows: Rows := [];
    for j := 0 to y
      invariant at == At(j, w + 1) && |raw| >= at && |rows| == j
      invariant fresh(buf) && Progress(rows, w, buf, out)
      invariant DecodeRows(raw, w, n, j) == Image(rows)
    {
      AtGrows(j + 1, y, w + 1);
      AtGrows(j + 1, y, w);
      if raw[at] > 4 {
        StaysInvalid(raw, w, n, j, y);
        return BadFilter;
      }
      rows := Turn(raw, at, w, n, j, buf, out, rows);
      at := at + 1 + w;
    }
    assert out[..] == out[..At(y, w)];
    FlattenShows(rows, w);
    status := Ok;
  }

  /** Written with any filters and read back, the pixels are the same, byte for byte. */
  lemma PixelsRoundTrip(pixels: seq<Byte>, stride: nat, w: nat, n: nat, y: nat, filters: seq<Byte>, extra: seq<Byte>)
    requires 1 <= n && forall j :: 0 <= j < y ==> stride * j + w <= |pixels|
    requires |filters| == y && forall j :: 0 <= j < y ==> filters[j] <= 4
    ensures var rows := W.RowsOf(pixels, stride, w, y);
      DecodeImage(EncodeImage(rows, filters, w, n, y) + extra, w, n, y) == Image(rows)
  {
    ImageRoundTrip(W.RowsOf(pixels, stride, w, y), filters, w, n, extra);
  }
}
