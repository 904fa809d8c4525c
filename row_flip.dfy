/**
 * The background half of a screen grab (capture.rs): the OpenGL readback lists
 * rows bottom-up, the saved image lists them top-down, so image pixel (row i,
 * column j) is read from readback pixel j + (h - 1 - i) * w, i.e. from the three
 * bytes starting at 3 * (j + (h - 1 - i) * w).
 */
module RowFlip {
  import opened Arithmetic

  type byte = b: int | 0 <= b < 256

  datatype Rgb = Rgb(r: byte, g: byte, b: byte)

  /** Length of the readback buffer: one byte per channel, three channels, `w * h` pixels. */
  function BufferSize(w: nat, h: nat): (size: nat)
    ensures size % 3 == 0 && size / 3 == w * h
  {
    w * h * 3
  }

  /** The readback pixel (counted in pixels, bottom row first) that becomes image pixel (i, j). */
  function SourcePixel(w: nat, h: nat, i: nat, j: nat): nat
    requires i < h
  {
    j + (h - 1 - i) * w
  }

  /** The image position (row from the top, column) that readback pixel `p` lands on. */
  function TargetPosition(w: nat, h: nat, p: nat): (nat, nat)
    requires w > 0 && p < w * h
  {
    DivBelow(p, w, h);
    (h - 1 - p / w, p % w)
  }

  /** Every pixel of the image reads three bytes that lie inside the `w * h * 3` buffer. */
  lemma SourceInBounds(w: nat, h: nat, i: nat, j: nat, k: nat)
    requires i < h && j < w && k < 3
    ensures SourcePixel(w, h, i, j) < w * h
    ensures 3 * SourcePixel(w, h, i, j) + k < BufferSize(w, h)
  {
    var r := h - 1 - i;
    MulMonotone(r + 1, h, w);
    assert (r + 1) * w == r * w + w;
    assert w * h * 3 == 3 * (w * h);
  }

  /** Image position → readback pixel is one-to-one and onto: reading the target back gives the position. */
  lemma SourceThenTarget(w: nat, h: nat, i: nat, j: nat)
    requires i < h && j < w
    ensures SourcePixel(w, h, i, j) < w * h
    ensures TargetPosition(w, h, SourcePixel(w, h, i, j)) == (i, j)
  {
    SourceInBounds(w, h, i, j, 0);
    DivModUnique(SourcePixel(w, h, i, j), w, h - 1 - i, j);
  }

  /** ... and every readback pixel is the source of exactly the position it targets. */
  lemma TargetThenSource(w: nat, h: nat, p: nat)
    requires w > 0 && p < w * h
    ensures TargetPosition(w, h, p).0 < h && TargetPosition(w, h, p).1 < w
    ensures SourcePixel(w, h, TargetPosition(w, h, p).0, TargetPosition(w, h, p).1) == p
  {
    DivBelow(p, w, h);
    assert p == (p / w) * w + p % w;
  }

  function PixelAt(buf: seq<byte>, w: nat, h: nat, p: nat): Rgb
    requires |buf| == BufferSize(w, h) && p < w * h
  {
    assert 3 * p + 2 < BufferSize(w, h) by {
      MulMonotone(p + 1, w * h, 3);
    }
    Rgb(buf[3 * p], buf[3 * p + 1], buf[3 * p + 2])
  }

  /** Row `r` of the readback as OpenGL delivers it (row 0 is the bottom of the framebuffer). */
  function ReadbackRow(buf: seq<byte>, w: nat, h: nat, r: nat): (row: seq<Rgb>)
    requires |buf| == BufferSize(w, h) && r < h
    ensures |row| == w
  {
    seq(w, c requires 0 <= c < w =>
      SourceInBounds(w, h, h - 1 - r, c, 0);
      PixelAt(buf, w, h, c + r * w))
  }

  /** The image the background task saves: row `i` from the top, column `j`
      (capture.rs:63-70, where `put_pixel(j, i, ..)` writes column j of row i). */
  function Flipped(buf: seq<byte>, w: nat, h: nat): (img: seq<seq<Rgb>>)
    requires |buf| == BufferSize(w, h)
    ensures |img| == h && forall i :: 0 <= i < h ==> |img[i]| == w
  {
    seq(h, i requires 0 <= i < h =>
      seq(w, j requires 0 <= j < w =>
        SourceInBounds(w, h, i, j, 0);
        PixelAt(buf, w, h, SourcePixel(w, h, i, j))))
  }

  /** The flip mirrors rows: image row i is readback row h - 1 - i. */
  lemma FlippedMirrorsRows(buf: seq<byte>, w: nat, h: nat, i: nat)
    requires |buf| == BufferSize(w, h) && i < h
    ensures Flipped(buf, w, h)[i] == ReadbackRow(buf, w, h, h - 1 - i)
  {
    var a, b := Flipped(buf, w, h)[i], ReadbackRow(buf, w, h, h - 1 - i);
    forall j | 0 <= j < w ensures a[j] == b[j] {
      assert SourcePixel(w, h, i, j) == j + (h - 1 - i) * w;
    }
  }

  /** The example of a 2x2 framebuffer: the saved top row is the last row read back. */
  lemma TwoByTwo(buf: seq<byte>)
    requires |buf| == 12
    ensures Flipped(buf, 2, 2) ==
      [[Rgb(buf[6], buf[7], buf[8]), Rgb(buf[9], buf[10], buf[11])],
       [Rgb(buf[0], buf[1], buf[2]), Rgb(buf[3], buf[4], buf[5])]]
  {
    var img := Flipped(buf, 2, 2);
    TwoByTwoRow(buf, 0, 2);
    TwoByTwoRow(buf, 1, 0);
    assert img[0] == [Rgb(buf[6], buf[7], buf[8]), Rgb(buf[9], buf[10], buf[11])];
    assert img[1] == [Rgb(buf[0], buf[1], buf[2]), Rgb(buf[3], buf[4], buf[5])];
  }

  /** Image row i of a 2x2 frame holds readback pixels p and p + 1, with p = 2 * (1 - i). */
  lemma TwoByTwoRow(buf: seq<byte>, i: nat, p: nat)
    requires |buf| == 12 && i < 2 && p == 2 - 2 * i
    ensures Flipped(buf, 2, 2)[i] == [Rgb(buf[3 * p], buf[3 * p + 1], buf[3 * p + 2]),
                                      Rgb(buf[3 * p + 3], buf[3 * p + 4], buf[3 * p + 5])]
  {
    FlippedPixel(buf, 2, 2, i, 0);
    FlippedPixel(buf, 2, 2, i, 1);
  }

  lemma FlippedPixel(buf: seq<byte>, w: nat, h: nat, i: nat, j: nat)
    requires |buf| == BufferSize(w, h) && i < h && j < w
    ensures SourcePixel(w, h, i, j) < w * h
    ensures Flipped(buf, w, h)[i][j] == PixelAt(buf, w, h, SourcePixel(w, h, i, j))
  {
    SourceInBounds(w, h, i, j, 0);
  }

  /** The closure handed to the worker pool, capture.rs:62-71: fills a fresh `w x h`
      image buffer pixel by pixel, row by row. */
  method Render(buf: seq<byte>, w: nat, h: nat) returns (img: array2<Rgb>)
    requires |buf| == BufferSize(w, h)
    ensures img.Length0 == h && img.Length1 == w
    ensures forall i, j :: 0 <= i < h && 0 <= j < w ==> img[i, j] == Flipped(buf, w, h)[i][j]
  {
    img := new Rgb[h, w]((i, j) => Rgb(0, 0, 0));
    for i := 0 to h
      invariant forall y, x :: 0 <= y < i && 0 <= x < w ==> img[y, x] == Flipped(buf, w, h)[y][x]
    {
      for j := 0 to w
        invariant forall y, x :: 0 <= y < i && 0 <= x < w ==> img[y, x] == Flipped(buf, w, h)[y][x]
        invariant forall x :: 0 <= x < j ==> img[i, x] == Flipped(buf, w, h)[i][x]
      {
        SourceInBounds(w, h, i, j, 2);
        var base := 3 * (j + (h - i - 1) * w);
        var r := buf[base + 0];
        var g := buf[base + 1];
        var b := buf[base + 2];
        img[i, j] := Rgb(r, g, b);
      }
    }
  }
}
