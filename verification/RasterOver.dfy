/**
 Drawing a coverage mask with one colour: premultiplied OVER on 8-bit channels, in place, with exact
 division by 255.
 */
module RasterOver {

  newtype byte = x: int | 0 <= x < 256

  /** Division by 255 without dividing. */
  function Multiply(a: byte, b: byte): byte {
    MultiplyBound(a, b);
    var product := a as int * b as int + 128;
    ((product + product / 256) / 256) as byte
  }

  function Rounded(p: int): int { (p + 128 + (p + 128) / 256) / 256 }

  lemma MultiplyBound(a: byte, b: byte)
    ensures 0 <= a as int * b as int <= 255 * 255
    ensures 0 <= Rounded(a as int * b as int) <= 255
  {
    Product(a as int, b as int, 255, 255);
  }

  lemma Product(a: int, b: int, c: int, d: int)
    requires 0 <= a <= c && 0 <= b <= d
    ensures 0 <= a * b <= c * d
  {
    assert c * d - a * b == (c - a) * d + a * (d - b);
  }

  /** The product over 255, rounded to the nearest whole number; there are no ties. */
  lemma MultiplyRounds(a: byte, b: byte)
    ensures Multiply(a, b) as int == (2 * (a as int * b as int) + 255) / 510
    ensures -255 < 2 * (255 * Multiply(a, b) as int - a as int * b as int) < 255
  {
    MultiplyBound(a, b);
    Nearest(a as int * b as int);
  }

  lemma Nearest(p: int)
    requires 0 <= p <= 255 * 255
    ensures Rounded(p) == (2 * p + 255) / 510 && -255 < 2 * (255 * Rounded(p) - p) < 255
  {
    var k, s := (p + 128) / 256, (p + 128) % 256;
    assert p + 128 == 256 * k + s && k <= 254;
    if s + k >= 256 {
      assert Rounded(p) == k + 1;
    } else {
      assert Rounded(p) == k;
    }
  }

  lemma MultiplyGrows(a: byte, b: byte, c: byte, d: byte)
    requires a <= c && b <= d
    ensures Multiply(a, b) <= Multiply(c, d)
  {
    Product(a as int, b as int, c as int, d as int);
  }

  lemma MultiplyWhole(b: byte)
    ensures Multiply(255, b) == b && Multiply(0, b) == 0
  {
    MultiplyRounds(255, b);
  }

  // ---- one pixel ----

  /** A colour's channels, alpha last. */
  type Color = seq<byte>

  function Channels(color: nat): (c: Color)
    requires color < 0x1_0000_0000
    ensures |c| == 4
    ensures color == c[0] as int + 0x100 * c[1] as int + 0x1_0000 * c[2] as int + 0x100_0000 * c[3] as int
  {
    var second := color / 256;
    var third := second / 256;
    var fourth := third / 256;
    [(color % 256) as byte, (second % 256) as byte, (third % 256) as byte, fourth as byte]
  }

  /** Channel `c` of a pixel that shows `under`, drawn over with `color` at coverage `alpha`. */
  function Over(under: byte, color: Color, c: nat, alpha: byte): byte
    requires |color| == 4 && c < 4
  {
    var value := Multiply(color[c], alpha) as int + Multiply(under, 255 - Multiply(color[3], alpha)) as int;
    if value > 255 then 255 else value as byte
  }

  /** No channel exceeds alpha. */
  predicate Premultiplied(p: Color)
    requires |p| == 4
  {
    p[0] <= p[3] && p[1] <= p[3] && p[2] <= p[3]
  }

  /** Under a premultiplied colour the clamp never fires, and the pixel stays premultiplied if it was. */
  lemma OverPremultiplied(under: byte, top: byte, color: Color, c: nat, alpha: byte)
    requires |color| == 4 && c < 4 && Premultiplied(color) && under <= top
    ensures Over(under, color, c, alpha) as int ==
      Multiply(color[c], alpha) as int + Multiply(under, 255 - Multiply(color[3], alpha)) as int
    ensures Over(under, color, c, alpha) <= Over(top, color, 3, alpha)
  {
    hide Multiply;
    var inverse := 255 - Multiply(color[3], alpha);
    MultiplyGrows(color[c], alpha, color[3], alpha);
    MultiplyGrows(under, inverse, top, inverse);
    MultiplyGrows(top, inverse, 255, inverse);
    MultiplyWhole(inverse);
  }

  /** Nothing covered changes nothing; an opaque colour fully covering replaces everything. */
  lemma OverEnds(under: byte, color: Color, c: nat)
    requires |color| == 4 && c < 4
    ensures Over(under, color, c, 0) == under
    ensures color[3] == 255 ==> Over(under, color, c, 255) == color[c]
  {
    hide Multiply;
    forall a: byte, b: byte ensures Multiply(a, b) == Multiply(b, a) {
      Commutes(a, b);
    }
    MultiplyWhole(color[c]);
    MultiplyWhole(color[3]);
    MultiplyWhole(under);
  }

  lemma Commutes(a: byte, b: byte)
    ensures Multiply(a, b) == Multiply(b, a)
  {
    assert a as int * b as int == b as int * a as int;
  }

  // ---- the rectangle ----

  /** A rectangle of pixels, its place in the buffer, and where its coverage lies in the mask. */
  datatype Draw = Draw(dx: nat, dy: nat, w: nat, h: nat, stride: nat, maskStride: nat, color: Color)
  {
    /** Rows do not overlap, and everything is inside the two buffers. */
    predicate InBounds(size: nat, maskSize: nat) {
      && |color| == 4 && (dx + w) * 4 <= stride
      && (h > 0 && w > 0 ==> (dy + h - 1) * stride + (dx + w) * 4 <= size && (h - 1) * maskStride + w <= maskSize)
    }

    function Row(y: nat): nat { (dy + y) * stride + dx * 4 }

    /** Byte `p` belongs to row `y` of the rectangle. */
    predicate InRow(p: nat, y: nat) { Row(y) <= p < Row(y) + 4 * w }

    predicate Outside(p: nat, rows: nat) { forall y: nat :: y < rows ==> !InRow(p, y) }

    lemma RowsApart(y: nat, z: nat)
      requires (dx + w) * 4 <= stride && y < z
      ensures Row(y) + 4 * w <= Row(z)
    {
      Steps(dy + y + 1, dy + z, stride);
      assert (dy + y + 1) * stride == (dy + y) * stride + stride;
    }

    lemma RowInside(y: nat, size: nat, maskSize: nat)
      requires InBounds(size, maskSize) && y < h && w > 0
      ensures Row(y) + 4 * w <= size && y * maskStride + w <= maskSize
    {
      Steps(dy + y, dy + h - 1, stride);
      Steps(y, h - 1, maskStride);
    }
  }

  lemma Steps(a: nat, b: nat, stride: nat)
    requires a <= b
    ensures 0 <= a * stride <= b * stride
  {
    assert b * stride - a * stride == (b - a) * stride;
  }

  /** Byte `q` of row `y` as the drawing leaves it. */
  function Drawn(d: Draw, before: seq<byte>, mask: seq<byte>, y: nat, q: nat): byte
    requires d.InBounds(|before|, |mask|) && y < d.h && q < 4 * d.w
  {
    d.RowInside(y, |before|, |mask|);
    var p, m := d.Row(y) + q, y * d.maskStride + q / 4;
    Over(before[p], d.color, q % 4, mask[m])
  }

  /** Row `y` is drawn: `after` holds the OVER formula there. */
  ghost predicate RowDrawn(d: Draw, before: seq<byte>, mask: seq<byte>, after: seq<byte>, y: nat)
    requires d.InBounds(|before|, |mask|) && |after| == |before| && y < d.h
  {
    forall q :: 0 <= q < 4 * d.w ==> RowByte(d, before, mask, after, y, q)
  }

  ghost predicate RowByte(d: Draw, before: seq<byte>, mask: seq<byte>, after: seq<byte>, y: nat, q: nat)
    requires d.InBounds(|before|, |mask|) && |after| == |before| && y < d.h && q < 4 * d.w
  {
    d.RowInside(y, |before|, |mask|);
    after[d.Row(y) + q] == Drawn(d, before, mask, y, q)
  }

  /** The first `rows` rows are drawn and nothing else has changed. */
  ghost predicate RowsDrawn(d: Draw, before: seq<byte>, mask: seq<byte>, after: seq<byte>, rows: nat)
    requires d.InBounds(|before|, |mask|) && rows <= d.h
  {
    && |after| == |before|
    && (forall y :: 0 <= y < rows ==> RowDrawn(d, before, mask, after, y))
    && (forall p :: 0 <= p < |before| && d.Outside(p, rows) ==> after[p] == before[p])
  }

  /** One more row. */
  lemma RowStep(d: Draw, before: seq<byte>, mask: seq<byte>, mid: seq<byte>, after: seq<byte>, y: nat)
    requires d.InBounds(|before|, |mask|) && y < d.h && RowsDrawn(d, before, mask, mid, y)
    requires |after| == |mid| && RowDrawn(d, mid, mask, after, y)
    requires forall p :: 0 <= p < |mid| && !d.InRow(p, y) ==> after[p] == mid[p]
    ensures RowsDrawn(d, before, mask, after, y + 1)
  {
    hide Over;
    forall z, q | 0 <= z <= y && 0 <= q < 4 * d.w ensures RowByte(d, before, mask, after, z, q) {
      d.RowInside(z, |before|, |mask|);
      if z < y {
        d.RowsApart(z, y);
        assert RowDrawn(d, before, mask, mid, z);
        assert RowByte(d, before, mask, mid, z, q);
      } else {
        var p := d.Row(y) + q;
        forall u: nat | u < y ensures !d.InRow(p, u) {
          d.RowsApart(u, y);
        }
        assert d.Outside(p, y);
        assert RowByte(d, mid, mask, after, y, q);
      }
    }
    forall z | 0 <= z <= y ensures RowDrawn(d, before, mask, after, z) {
    }
  }

  /**
   Channel `c` of pixel (x, y) of a drawn rectangle: the colour scaled by the mask byte of that very
   pixel, over what was there scaled by what the scaled alpha leaves, held at 255.
   */
  lemma PixelDrawn(d: Draw, before: seq<byte>, mask: seq<byte>, after: seq<byte>, x: nat, y: nat, c: nat)
    requires d.InBounds(|before|, |mask|) && RowsDrawn(d, before, mask, after, d.h)
    requires x < d.w && y < d.h && c < 4
    ensures |after| == |before| && y * d.maskStride + x < |mask|
    ensures 0 <= (d.dy + y) * d.stride + 4 * (d.dx + x) + c < |before|
    ensures var p, alpha := (d.dy + y) * d.stride + 4 * (d.dx + x) + c, mask[y * d.maskStride + x];
      var value := Multiply(d.color[c], alpha) as int + Multiply(before[p], 255 - Multiply(d.color[3], alpha)) as int;
      after[p] as int == if value > 255 then 255 else value
  {
    hide Multiply;
    d.RowInside(y, |before|, |mask|);
    assert RowDrawn(d, before, mask, after, y);
    assert RowByte(d, before, mask, after, y, 4 * x + c);
    assert (4 * x + c) % 4 == c && (4 * x + c) / 4 == x;
    assert (d.dy + y) * d.stride + 4 * (d.dx + x) + c == d.Row(y) + (4 * x + c);
  }

  /** Draw one pixel's four channels over what is there. */
  method DrawPixel(dst: array<byte>, at: nat, color: Color, alpha: byte)
    requires |color| == 4 && at + 4 <= dst.Length
    modifies dst
    ensures forall p :: 0 <= p < dst.Length ==>
      dst[p] == if at <= p < at + 4 then Over(old(dst[p]), color, p - at, alpha) else old(dst[p])
  {
    hide Over;
    for c := 0 to 4
      invariant forall p :: 0 <= p < dst.Length ==>
        dst[p] == if at <= p < at + c then Over(old(dst[p]), color, p - at, alpha) else old(dst[p])
    {
      dst[at + c] := Over(dst[at + c], color, c, alpha);
    }
  }

  /** Byte `q` of a row of pixels drawn from the mask bytes from `first` on. */
  function RowOver(color: Color, under: byte, mask: seq<byte>, first: nat, q: nat): byte
    requires |color| == 4 && first + q / 4 < |mask|
  {
    Over(under, color, q % 4, mask[first + q / 4])
  }

  method DrawRow(d: Draw, mask: array<byte>, dst: array<byte>, y: nat)
    requires mask != dst && d.InBounds(dst.Length, mask.Length) && y < d.h
    modifies dst
    ensures RowDrawn(d, old(dst[..]), mask[..], dst[..], y)
    ensures forall p :: 0 <= p < dst.Length && !d.InRow(p, y) ==> dst[p] == old(dst[p])
  {
    if d.w == 0 {
      return;
    }
    d.RowInside(y, dst.Length, mask.Length);
    ghost var before := dst[..];
    DrawPixels(d.color, mask, y * d.maskStride, dst, d.Row(y), d.w);
    forall q | 0 <= q < 4 * d.w ensures RowByte(d, before, mask[..], dst[..], y, q) {
      hide Over;
      assert dst[d.Row(y) + q] == RowOver(d.color, before[d.Row(y) + q], mask[..], y * d.maskStride, q);
    }
  }

  /** Draw `w` pixels that lie side by side. */
  method DrawPixels(color: Color, mask: array<byte>, first: nat, dst: array<byte>, row: nat, w: nat)
    requires mask != dst && |color| == 4 && row + 4 * w <= dst.Length && first + w <= mask.Length
    modifies dst
    ensures forall p :: row <= p < row + 4 * w ==> dst[p] == RowOver(color, old(dst[p]), mask[..], first, p - row)
    ensures forall p :: 0 <= p < dst.Length && !(row <= p < row + 4 * w) ==> dst[p] == old(dst[p])
  {
    hide RowOver;
    for x := 0 to w
      invariant forall p :: row <= p < row + 4 * x ==> dst[p] == RowOver(color, old(dst[p]), mask[..], first, p - row)
      invariant forall p :: 0 <= p < dst.Length && !(row <= p < row + 4 * x) ==> dst[p] == old(dst[p])
    {
      DrawPixel(dst, row + 4 * x, color, mask[first + x]);
      forall p | row + 4 * x <= p < row + 4 * x + 4
        ensures RowOver(color, old(dst[p]), mask[..], first, p - row) == Over(old(dst[p]), color, p - row - 4 * x, mask[first + x])
      {
        PixelByte(color, old(dst[p]), mask[..], first, x, p - row - 4 * x);
      }
    }
  }

  lemma PixelByte(color: Color, under: byte, mask: seq<byte>, first: nat, x: nat, c: nat)
    requires |color| == 4 && first + x < |mask| && c < 4
    ensures RowOver(color, under, mask, first, 4 * x + c) == Over(under, color, c, mask[first + x])
  {
    assert (4 * x + c) % 4 == c && (4 * x + c) / 4 == x;
  }

  /** Draw the rectangle: inside exactly the OVER formula, outside nothing. */
  method Composite(d: Draw, mask: array<byte>, dst: array<byte>)
    requires mask != dst && d.InBounds(dst.Length, mask.Length)
    modifies dst
    ensures RowsDrawn(d, old(dst[..]), mask[..], dst[..], d.h)
  {
    hide Over, Draw.Row, Multiply, RowDrawn;
    ghost var before := dst[..];
    for y := 0 to d.h
      invariant RowsDrawn(d, before, mask[..], dst[..], y)
    {
      ghost var mid := dst[..];
      DrawRow(d, mask, dst, y);
      RowStep(d, before, mask[..], mid, dst[..], y);
    }
  }

  /** The drawing as callers ask for it: the colour packed into one word, alpha in its top byte. */
  method Scalar(mask: array<byte>, maskStride: nat, dst: array<byte>, stride: nat, dx: nat, dy: nat, w: nat, h: nat, color: nat)
    requires mask != dst && color < 0x1_0000_0000
    requires Draw(dx, dy, w, h, stride, maskStride, Channels(color)).InBounds(dst.Length, mask.Length)
    modifies dst
    ensures RowsDrawn(Draw(dx, dy, w, h, stride, maskStride, Channels(color)), old(dst[..]), mask[..], dst[..], h)
  {
    Composite(Draw(dx, dy, w, h, stride, maskStride, Channels(color)), mask, dst);
  }

  // ---- whole images ----

  /** Pixel `x` of row `y` of an image lies in the buffer. */
  predicate PixelAt(size: nat, stride: nat, x: nat, y: nat) { 4 * x + 4 <= stride && y * stride + 4 * x + 4 <= size }

  predicate PixelPremultiplied(image: seq<byte>, stride: nat, x: nat, y: nat)
    requires PixelAt(|image|, stride, x, y)
  {
    var p := y * stride + 4 * x;
    Premultiplied(image[p..p + 4])
  }

  ghost predicate ImagePremultiplied(image: seq<byte>, stride: nat) {
    forall x: nat, y: nat :: PixelAt(|image|, stride, x, y) ==> PixelPremultiplied(image, stride, x, y)
  }

  /** A pixel inside the rectangle is four bytes of one of its rows. */
  lemma PixelInside(d: Draw, before: seq<byte>, mask: seq<byte>, after: seq<byte>, x: nat, y: nat)
    requires d.InBounds(|before|, |mask|) && RowsDrawn(d, before, mask, after, d.h) && x < d.w && y < d.h
    requires Premultiplied(d.color) && PixelAt(|before|, d.stride, d.dx + x, d.dy + y)
    requires PixelPremultiplied(before, d.stride, d.dx + x, d.dy + y)
    ensures PixelPremultiplied(after, d.stride, d.dx + x, d.dy + y)
  {
    hide Over, Multiply;
    var p := (d.dy + y) * d.stride + 4 * (d.dx + x);
    assert p == d.Row(y) + 4 * x;
    d.RowInside(y, |before|, |mask|);
    assert RowDrawn(d, before, mask, after, y);
    var alpha := mask[y * d.maskStride + x];
    var was, now := before[p..p + 4], after[p..p + 4];
    forall c: nat | c < 4 ensures now[c] == Over(was[c], d.color, c, alpha) {
      assert RowByte(d, before, mask, after, y, 4 * x + c);
    }
    forall c: nat | c < 3 ensures now[c] <= now[3] {
      OverPremultiplied(was[c], was[3], d.color, c, alpha);
    }
  }

  /** A pixel outside the rectangle has no byte in any of its rows. */
  lemma PixelOutside(d: Draw, size: nat, x: nat, y: nat, c: nat, z: nat)
    requires d.stride >= (d.dx + d.w) * 4 && PixelAt(size, d.stride, x, y) && c < 4
    requires !(d.dx <= x < d.dx + d.w && y == d.dy + z)
    ensures !d.InRow(y * d.stride + 4 * x + c, z)
  {
    if y < d.dy + z {
      Steps(y + 1, d.dy + z, d.stride);
      assert (y + 1) * d.stride == y * d.stride + d.stride;
    } else if y > d.dy + z {
      Steps(d.dy + z + 1, y, d.stride);
      assert (d.dy + z + 1) * d.stride == (d.dy + z) * d.stride + d.stride;
    }
  }

  /** A drawing with a premultiplied colour keeps an image premultiplied. */
  lemma DrawingPremultiplied(d: Draw, before: seq<byte>, mask: seq<byte>, after: seq<byte>)
    requires d.InBounds(|before|, |mask|) && RowsDrawn(d, before, mask, after, d.h)
    requires Premultiplied(d.color) && ImagePremultiplied(before, d.stride)
    ensures ImagePremultiplied(after, d.stride)
  {
    hide Over, Draw.Row, RowDrawn, PixelPremultiplied;
    forall x: nat, y: nat | PixelAt(|after|, d.stride, x, y) ensures PixelPremultiplied(after, d.stride, x, y) {
      assert PixelPremultiplied(before, d.stride, x, y);
      if d.dx <= x < d.dx + d.w && d.dy <= y < d.dy + d.h {
        PixelInside(d, before, mask, after, x - d.dx, y - d.dy);
      } else {
        PixelKept(d, before, mask, after, x, y);
      }
    }
  }

  lemma PixelKept(d: Draw, before: seq<byte>, mask: seq<byte>, after: seq<byte>, x: nat, y: nat)
    requires d.InBounds(|before|, |mask|) && RowsDrawn(d, before, mask, after, d.h)
    requires PixelAt(|before|, d.stride, x, y) && !(d.dx <= x < d.dx + d.w && d.dy <= y < d.dy + d.h)
    ensures PixelPremultiplied(after, d.stride, x, y) == PixelPremultiplied(before, d.stride, x, y)
  {
    hide Over, RowDrawn, Draw.Row, Draw.InRow, Premultiplied;
    var p := y * d.stride + 4 * x;
    var was, now := before[p..p + 4], after[p..p + 4];
    forall c: nat | c < 4 ensures now[c] == was[c] {
      var q := p + c;
      forall z: nat | z < d.h ensures !d.InRow(q, z) {
        PixelOutside(d, |before|, x, y, c, z);
      }
      assert d.Outside(q, d.h);
    }
    assert now == was;
  }

  /** Any number of drawings with premultiplied colours leaves a premultiplied image premultiplied. */
  method DrawAll(draws: seq<Draw>, masks: seq<array<byte>>, dst: array<byte>, stride: nat)
    requires |draws| == |masks| && dst !in masks && ImagePremultiplied(dst[..], stride)
    requires forall i :: 0 <= i < |draws| ==>
      draws[i].InBounds(dst.Length, masks[i].Length) && draws[i].stride == stride && Premultiplied(draws[i].color)
    modifies dst
    ensures ImagePremultiplied(dst[..], stride)
  {
    hide ImagePremultiplied, RowsDrawn;
    for i := 0 to |draws|
      invariant ImagePremultiplied(dst[..], stride)
    {
      ghost var before := dst[..];
      Composite(draws[i], masks[i], dst);
      DrawingPremultiplied(draws[i], before, masks[i][..], dst[..]);
    }
  }
}
