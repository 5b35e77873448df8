/** The command-line tool tools/png-to-masked-jpeg.js: it splits an RGBA
    image into an opaque colour image and an opaque greyscale mask holding
    the alpha channel, for writing as a pair of JPEG files. The pixel
    buffers are the canvas's `Uint8ClampedArray`s, modelled as arrays of
    bytes; reading and writing the image files is left to the caller. */
module PngMaskedJpeg {
  import opened Values

  /** An element of a `Uint8ClampedArray`. Every value the tool stores is
      already a byte, so clamping never comes into play. */
  type Byte = b: int | 0 <= b < 256

  /** The canvas `ImageData`: its size and its RGBA bytes, row by row. */
  class ImageData {
    const width: nat
    const height: nat
    const data: array<Byte>

    /** Four bytes for each of the `width * height` pixels. */
    predicate Valid() {
      data.Length == 4 * (width * height)
    }

    /** `createImageData(data, width, height)`, which refuses a buffer of
        any other length. */
    constructor (data: array<Byte>, width: nat, height: nat)
      requires data.Length == 4 * (width * height)
      ensures Valid()
      ensures this.data == data && this.width == width && this.height == height
    {
      this.data := data;
      this.width := width;
      this.height := height;
    }
  }

  /** The bounds of a `subarray` view, as offsets into the whole buffer. */
  datatype View = View(start: nat, end: nat)

  /** `getPixel(imageData, x, y)`: the view `subarray(begin, begin + 4)` of
      the pixel at column `x` and row `y`, where `begin` is
      `4 * (y * width + x)`; `subarray` clamps both ends to the buffer. */
  function GetPixel(image: ImageData, x: nat, y: nat): (v: View)
    ensures v.start <= v.end <= image.data.Length
  {
    var begin := y * image.width * 4 + x * 4;
    var len := image.data.Length;
    var start := if begin < len then begin else len;
    var end := if begin + 4 < len then begin + 4 else len;
    View(start, end)
  }

  /** For a pixel inside the image no clamping happens: the view is
      exactly the four bytes from `4 * (y * width + x)`. */
  lemma PixelView(image: ImageData, x: nat, y: nat)
    requires image.Valid() && x < image.width && y < image.height
    ensures GetPixel(image, x, y) == View(4 * (y * image.width + x), 4 * (y * image.width + x) + 4)
  {
    PixelInside(image.width, image.height, x, y);
  }

  /** `a <= b` survives multiplication by the same natural number. */
  lemma MulMonotonic(a: nat, b: nat, w: nat)
    requires a <= b
    ensures a * w <= b * w
  {
    assert b * w == a * w + (b - a) * w;
  }

  /** The pixel index of a pixel inside the image is below the pixel count. */
  lemma PixelInside(w: nat, h: nat, x: nat, y: nat)
    requires x < w && y < h
    ensures y * w + x < w * h
  {
    MulMonotonic(y + 1, h, w);
    assert (y + 1) * w == y * w + w;
  }

  /** Distinct pixels of an image have views that do not overlap. */
  lemma PixelsDisjoint(image: ImageData, x1: nat, y1: nat, x2: nat, y2: nat)
    requires image.Valid()
    requires x1 < image.width && y1 < image.height
    requires x2 < image.width && y2 < image.height
    requires x1 != x2 || y1 != y2
    ensures var v1 := GetPixel(image, x1, y1); var v2 := GetPixel(image, x2, y2);
      v1.end <= v2.start || v2.end <= v1.start
  {
    var w := image.width;
    PixelView(image, x1, y1);
    PixelView(image, x2, y2);
    if y1 < y2 {
      MulMonotonic(y1 + 1, y2, w);
      assert (y1 + 1) * w == y1 * w + w;
    } else if y2 < y1 {
      MulMonotonic(y2 + 1, y1, w);
      assert (y2 + 1) * w == y2 * w + w;
    }
  }

  /** Every byte of an image lies in the view of some pixel inside it. */
  lemma PixelsCover(image: ImageData, i: nat)
    requires image.Valid() && i < image.data.Length
    ensures exists x: nat, y: nat ::
      x < image.width && y < image.height && GetPixel(image, x, y).start <= i < GetPixel(image, x, y).end
  {
    var w, h := image.width, image.height;
    var p := i / 4;
    assert p < w * h;
    assert w > 0;
    var x: nat, y: nat := p % w, p / w;
    assert p == y * w + x;
    if y >= h {
      MulMonotonic(h, y, w);
      assert false;
    }
    PixelView(image, x, y);
    assert GetPixel(image, x, y).start <= i < GetPixel(image, x, y).end;
  }

  /** `cloneImageData(imageData)`: a new image of the same size over a new
      buffer holding a copy of the bytes. */
  method CloneImageData(image: ImageData) returns (clone: ImageData)
    requires image.Valid()
    ensures fresh(clone) && fresh(clone.data) && clone.Valid()
    ensures clone.width == image.width && clone.height == image.height
    ensures clone.data[..] == image.data[..]
  {
    var cloneData := new Byte[image.data.Length];
    forall i | 0 <= i < image.data.Length {
      cloneData[i] := image.data[i];
    }
    clone := new ImageData(cloneData, image.width, image.height);
  }

  /** One pixel of the colour image: black where the pixel is fully
      transparent, its own colour elsewhere, always opaque. */
  function ColorPixel(px: seq<Byte>): (r: seq<Byte>)
    requires |px| == 4
  {
    if px[3] == 0 then [0, 0, 0, 255] else [px[0], px[1], px[2], 255]
  }

  /** One pixel of the mask: grey at the level of the pixel's alpha,
      always opaque. */
  function MaskPixel(px: seq<Byte>): (r: seq<Byte>)
    requires |px| == 4
  {
    [px[3], px[3], px[3], 255]
  }

  /** The colour image's bytes, pixel by pixel. (A buffer always holds
      whole pixels; a partial one at the end would be kept as it is.) */
  function Colored(s: seq<Byte>): (r: seq<Byte>)
    ensures |r| == |s|
  {
    if |s| < 4 then s else ColorPixel(s[..4]) + Colored(s[4..])
  }

  /** The mask's bytes, pixel by pixel. */
  function Masked(s: seq<Byte>): (r: seq<Byte>)
    ensures |r| == |s|
  {
    if |s| < 4 then s else MaskPixel(s[..4]) + Masked(s[4..])
  }

  /** No pixel has an alpha other than 255. */
  predicate Opaque(s: seq<Byte>)
  {
    |s| < 4 || (s[3] == 255 && Opaque(s[4..]))
  }

  /** Colouring works pixel by pixel, so it distributes over a buffer cut
      after `k` whole pixels. */
  lemma {:induction false} ColoredConcat(a: seq<Byte>, b: seq<Byte>, k: nat)
    requires |a| == 4 * k
    ensures Colored(a + b) == Colored(a) + Colored(b)
  {
    if k == 0 {
      assert a + b == b;
    } else {
      assert (a + b)[..4] == a[..4] && (a + b)[4..] == a[4..] + b;
      ColoredConcat(a[4..], b, k - 1);
    }
  }

  /** Masking distributes likewise. */
  lemma {:induction false} MaskedConcat(a: seq<Byte>, b: seq<Byte>, k: nat)
    requires |a| == 4 * k
    ensures Masked(a + b) == Masked(a) + Masked(b)
  {
    if k == 0 {
      assert a + b == b;
    } else {
      assert (a + b)[..4] == a[..4] && (a + b)[4..] == a[4..] + b;
      MaskedConcat(a[4..], b, k - 1);
    }
  }

  /** A buffer cut after whole pixels is opaque exactly when both parts
      are. */
  lemma {:induction false} OpaqueConcat(a: seq<Byte>, b: seq<Byte>, k: nat)
    requires |a| == 4 * k
    ensures Opaque(a + b) <==> Opaque(a) && Opaque(b)
  {
    if k == 0 {
      assert a + b == b;
    } else {
      assert (a + b)[3] == a[3] && (a + b)[4..] == a[4..] + b;
      OpaqueConcat(a[4..], b, k - 1);
    }
  }

  /** The middle part of a three-part sequence. */
  lemma Middle<T>(a: seq<T>, b: seq<T>, c: seq<T>)
    ensures (a + (b + c))[|a|..|a| + |b|] == b
  {
  }

  /** A buffer cut around pixel `p`. */
  lemma Around(s: seq<Byte>, p: nat)
    requires 4 * p + 4 <= |s|
    ensures s == s[..4 * p] + (s[4 * p..4 * p + 4] + s[4 * p + 4..])
  {
  }

  /** The colour image of a buffer cut around pixel `p`. */
  lemma ColoredAround(s: seq<Byte>, p: nat)
    requires 4 * p + 4 <= |s|
    ensures Colored(s) == Colored(s[..4 * p]) + (ColorPixel(s[4 * p..4 * p + 4]) + Colored(s[4 * p + 4..]))
  {
    var pre, px, post := s[..4 * p], s[4 * p..4 * p + 4], s[4 * p + 4..];
    Around(s, p);
    ColoredConcat(pre, px + post, p);
    ColoredConcat(px, post, 1);
    assert Colored(px) == ColorPixel(px);
  }

  /** Pixel `p` of the colour image is computed from pixel `p` of the
      input alone. */
  lemma ColoredPixel(s: seq<Byte>, p: nat)
    requires 4 * p + 4 <= |s|
    ensures Colored(s)[4 * p..4 * p + 4] == ColorPixel(s[4 * p..4 * p + 4])
  {
    ColoredAround(s, p);
    Middle(Colored(s[..4 * p]), ColorPixel(s[4 * p..4 * p + 4]), Colored(s[4 * p + 4..]));
  }

  /** The mask of a buffer cut around pixel `p`. */
  lemma MaskedAround(s: seq<Byte>, p: nat)
    requires 4 * p + 4 <= |s|
    ensures Masked(s) == Masked(s[..4 * p]) + (MaskPixel(s[4 * p..4 * p + 4]) + Masked(s[4 * p + 4..]))
  {
    var pre, px, post := s[..4 * p], s[4 * p..4 * p + 4], s[4 * p + 4..];
    Around(s, p);
    MaskedConcat(pre, px + post, p);
    MaskedConcat(px, post, 1);
    assert Masked(px) == MaskPixel(px);
  }

  /** Pixel `p` of the mask is computed from pixel `p` of the input
      alone. */
  lemma MaskedPixel(s: seq<Byte>, p: nat)
    requires 4 * p + 4 <= |s|
    ensures Masked(s)[4 * p..4 * p + 4] == MaskPixel(s[4 * p..4 * p + 4])
  {
    MaskedAround(s, p);
    Middle(Masked(s[..4 * p]), MaskPixel(s[4 * p..4 * p + 4]), Masked(s[4 * p + 4..]));
  }

  /** In an opaque buffer pixel `p` has alpha 255. */
  lemma OpaquePixel(s: seq<Byte>, p: nat)
    requires 4 * p + 4 <= |s| && Opaque(s)
    ensures s[4 * p + 3] == 255
  {
    var pre, px, post := s[..4 * p], s[4 * p..4 * p + 4], s[4 * p + 4..];
    assert Opaque(px) by {
      Around(s, p);
      OpaqueConcat(pre, px + post, p);
      OpaqueConcat(px, post, 1);
    }
    assert px[3] == s[4 * p + 3];
  }

  /** The colour image at pixel `p`: alpha 255, and each of red, green
      and blue zero where the original alpha is zero and the original
      value elsewhere. */
  lemma ColoredAt(s: seq<Byte>, p: nat)
    requires 4 * p + 4 <= |s|
    ensures Colored(s)[4 * p + 3] == 255
    ensures Colored(s)[4 * p] == if s[4 * p + 3] == 0 then 0 else s[4 * p]
    ensures Colored(s)[4 * p + 1] == if s[4 * p + 3] == 0 then 0 else s[4 * p + 1]
    ensures Colored(s)[4 * p + 2] == if s[4 * p + 3] == 0 then 0 else s[4 * p + 2]
  {
    var o := 4 * p;
    var px, c := s[o..o + 4], Colored(s)[o..o + 4];
    assert c == ColorPixel(px) by {
      ColoredPixel(s, p);
    }
    assert Colored(s)[o] == c[0] && Colored(s)[o + 1] == c[1];
    assert Colored(s)[o + 2] == c[2] && Colored(s)[o + 3] == c[3];
    assert s[o] == px[0] && s[o + 1] == px[1] && s[o + 2] == px[2] && s[o + 3] == px[3];
  }

  /** The mask at pixel `p`: red, green and blue all hold the original
      alpha, and alpha is 255. */
  lemma MaskedAt(s: seq<Byte>, p: nat)
    requires 4 * p + 4 <= |s|
    ensures Masked(s)[4 * p + 3] == 255
    ensures Masked(s)[4 * p] == Masked(s)[4 * p + 1] == Masked(s)[4 * p + 2] == s[4 * p + 3]
  {
    var o := 4 * p;
    var px, m := s[o..o + 4], Masked(s)[o..o + 4];
    assert m == MaskPixel(px) by {
      MaskedPixel(s, p);
    }
    assert Masked(s)[o] == m[0] && Masked(s)[o + 1] == m[1];
    assert Masked(s)[o + 2] == m[2] && Masked(s)[o + 3] == m[3];
    assert s[o + 3] == px[3];
  }

  /** A buffer is opaque exactly when every pixel's alpha is 255. */
  lemma {:induction false} OpaqueAlphas(s: seq<Byte>)
    ensures Opaque(s) <==> forall p :: 0 <= p && 4 * p + 4 <= |s| ==> s[4 * p + 3] == 255
  {
    if Opaque(s) {
      forall p | 0 <= p && 4 * p + 4 <= |s|
        ensures s[4 * p + 3] == 255
      {
        OpaquePixel(s, p);
      }
    } else if s[3] == 255 {
      OpaqueAlphas(s[4..]);
      var q :| 0 <= q && 4 * q + 4 <= |s[4..]| && s[4..][4 * q + 3] != 255;
      assert s[4 * (q + 1) + 3] != 255;
    }
  }

  /** Both outputs are opaque. */
  lemma {:induction false} OutputsOpaque(s: seq<Byte>)
    ensures Opaque(Colored(s)) && Opaque(Masked(s))
  {
    if |s| >= 4 {
      OutputsOpaque(s[4..]);
      OpaqueConcat(ColorPixel(s[..4]), Colored(s[4..]), 1);
      OpaqueConcat(MaskPixel(s[..4]), Masked(s[4..]), 1);
    }
  }

  /** An image with no transparency comes out of colouring unchanged. */
  lemma {:induction false} OpaqueColoredUnchanged(s: seq<Byte>)
    requires Opaque(s)
    ensures Colored(s) == s
  {
    if |s| >= 4 {
      OpaqueColoredUnchanged(s[4..]);
      assert s[..4] + s[4..] == s;
    }
  }

  /** The state of `splitChannels` after its first `p` pixels: both
      outputs are split up to there and still hold the original bytes
      after it, and the flag says whether one of those pixels is not
      fully opaque. */
  ghost predicate SplitUpTo(color: seq<Byte>, mask: seq<Byte>, flag: bool, src: seq<Byte>, p: nat) {
    && 4 * p <= |src| && |color| == |src| && |mask| == |src|
    && color[..4 * p] == Colored(src[..4 * p]) && color[4 * p..] == src[4 * p..]
    && mask[..4 * p] == Masked(src[..4 * p]) && mask[4 * p..] == src[4 * p..]
    && (flag <==> !Opaque(src[..4 * p]))
  }

  /** A buffer cut before pixel `p`, pixel `p` and the rest. */
  lemma Cut(s: seq<Byte>, o: nat)
    requires o + 4 <= |s|
    ensures s[..o + 4] == s[..o] + s[o..o + 4]
    ensures s[o..][..4] == s[o..o + 4] && s[o..][4..] == s[o + 4..]
  {
  }

  /** Colouring pixel `p` extends a coloured prefix by one pixel. */
  lemma ColorStep(color: seq<Byte>, color': seq<Byte>, src: seq<Byte>, p: nat)
    requires 4 * p + 4 <= |src| && |color| == |src| && |color'| == |src|
    requires color[..4 * p] == Colored(src[..4 * p]) && color[4 * p..] == src[4 * p..]
    requires color'[..4 * p] == color[..4 * p] && color'[4 * p + 4..] == color[4 * p + 4..]
    requires color'[4 * p..4 * p + 4] == ColorPixel(color[4 * p..4 * p + 4])
    ensures color'[..4 * p + 4] == Colored(src[..4 * p + 4]) && color'[4 * p + 4..] == src[4 * p + 4..]
  {
    var o := 4 * p;
    var px := src[o..o + 4];
    Cut(src, o);
    Cut(color, o);
    Cut(color', o);
    ColoredConcat(src[..o], px, p);
    assert Colored(px) == ColorPixel(px) + Colored(px[4..]);
  }

  /** Masking pixel `p` extends a masked prefix by one pixel. */
  lemma MaskStep(mask: seq<Byte>, mask': seq<Byte>, src: seq<Byte>, p: nat)
    requires 4 * p + 4 <= |src| && |mask| == |src| && |mask'| == |src|
    requires mask[..4 * p] == Masked(src[..4 * p]) && mask[4 * p..] == src[4 * p..]
    requires mask'[..4 * p] == mask[..4 * p] && mask'[4 * p + 4..] == mask[4 * p + 4..]
    requires mask'[4 * p..4 * p + 4] == MaskPixel(mask[4 * p..4 * p + 4])
    ensures mask'[..4 * p + 4] == Masked(src[..4 * p + 4]) && mask'[4 * p + 4..] == src[4 * p + 4..]
  {
    var o := 4 * p;
    var px := src[o..o + 4];
    Cut(src, o);
    Cut(mask, o);
    Cut(mask', o);
    MaskedConcat(src[..o], px, p);
    assert Masked(px) == MaskPixel(px) + Masked(px[4..]);
  }

  /** The opacity of the first `p + 1` pixels. */
  lemma OpaqueStep(src: seq<Byte>, p: nat)
    requires 4 * p + 4 <= |src|
    ensures Opaque(src[..4 * p + 4]) <==> Opaque(src[..4 * p]) && src[4 * p + 3] == 255
  {
    var px := src[4 * p..4 * p + 4];
    Cut(src, 4 * p);
    OpaqueConcat(src[..4 * p], px, p);
    assert Opaque(px) <==> px[3] == 255 && Opaque(px[4..]);
  }

  /** Before the first pixel both outputs are the original bytes. */
  lemma SplitStart(src: seq<Byte>)
    ensures SplitUpTo(src, src, false, src, 0)
  {
    assert src[..0] == [];
  }

  /** After the last pixel the outputs are the colour image and the
      mask, and the flag says whether the input has transparency. */
  lemma SplitDone(color: seq<Byte>, mask: seq<Byte>, flag: bool, src: seq<Byte>, p: nat)
    requires SplitUpTo(color, mask, flag, src, p) && 4 * p == |src|
    ensures color == Colored(src) && mask == Masked(src) && (flag <==> !Opaque(src))
  {
    assert src[..4 * p] == src && color[..4 * p] == color && mask[..4 * p] == mask;
  }

  /** Splitting pixel `p` moves the state on by one pixel. */
  lemma SplitStep(color: seq<Byte>, mask: seq<Byte>, flag: bool, color': seq<Byte>, mask': seq<Byte>, flag': bool, src: seq<Byte>, p: nat)
    requires 4 * p + 4 <= |src| && SplitUpTo(color, mask, flag, src, p)
    requires |color'| == |src| && |mask'| == |src|
    requires color'[..4 * p] == color[..4 * p] && color'[4 * p + 4..] == color[4 * p + 4..]
    requires color'[4 * p..4 * p + 4] == ColorPixel(color[4 * p..4 * p + 4])
    requires mask'[..4 * p] == mask[..4 * p] && mask'[4 * p + 4..] == mask[4 * p + 4..]
    requires mask'[4 * p..4 * p + 4] == MaskPixel(mask[4 * p..4 * p + 4])
    requires flag' <==> flag || mask[4 * p + 3] != 255
    ensures SplitUpTo(color', mask', flag', src, p + 1)
  {
    ColorStep(color, color', src, p);
    MaskStep(mask, mask', src, p);
    OpaqueStep(src, p);
    assert mask[4 * p..][3] == src[4 * p..][3];
  }

  /** The body of the inner loop, for the colour pixel whose bytes start
      at `c` and the mask pixel whose bytes start at `m`: black out a
      fully transparent colour pixel and make it opaque, copy the mask
      pixel's alpha into its red, green and blue, raise the flag if that
      alpha is not 255, and make the mask pixel opaque. */
  method SplitPixel(color: array<Byte>, c: nat, mask: array<Byte>, m: nat, hasTransparency: bool) returns (flag: bool)
    requires color != mask
    requires c + 4 <= color.Length && m + 4 <= mask.Length
    modifies color, mask
    ensures color[..c] == old(color[..c]) && color[c + 4..] == old(color[c + 4..])
    ensures color[c..c + 4] == ColorPixel(old(color[c..c + 4]))
    ensures mask[..m] == old(mask[..m]) && mask[m + 4..] == old(mask[m + 4..])
    ensures mask[m..m + 4] == MaskPixel(old(mask[m..m + 4]))
    ensures flag <==> hasTransparency || old(mask[m + 3]) != 255
  {
    flag := hasTransparency;
    if color[c + 3] == 0 {
      color[c + 2] := 0;
      color[c + 1] := 0;
      color[c] := 0;
    }
    color[c + 3] := 255;
    var alpha := mask[m + 3];
    mask[m + 2] := alpha;
    mask[m + 1] := alpha;
    mask[m] := alpha;
    if mask[m + 3] != 255 {
      flag := true;
    }
    mask[m + 3] := 255;
  }

  /** One pass of the inner loop, at column `x` of row `y`, the image's
      pixel `p`: the views of the pixel in both images, then its split. */
  method SplitPixelAt(color: ImageData, mask: ImageData, x: nat, y: nat, hasTransparency: bool, ghost src: seq<Byte>, ghost p: nat)
    returns (flag: bool)
    requires color.Valid() && mask.Valid() && color.data != mask.data
    requires color.width == mask.width && color.height == mask.height
    requires x < color.width && y < color.height && p == y * color.width + x
    requires SplitUpTo(color.data[..], mask.data[..], hasTransparency, src, p)
    modifies color.data, mask.data
    ensures SplitUpTo(color.data[..], mask.data[..], flag, src, p + 1)
  {
    PixelView(color, x, y);
    PixelView(mask, x, y);
    ghost var colorBefore, maskBefore := color.data[..], mask.data[..];
    var colorPixel := GetPixel(color, x, y);
    var maskPixel := GetPixel(mask, x, y);
    flag := SplitPixel(color.data, colorPixel.start, mask.data, maskPixel.start, hasTransparency);
    SplitStep(colorBefore, maskBefore, hasTransparency, color.data[..], mask.data[..], flag, src, p);
  }

  /** The inner loop of `splitChannels`, over the pixels of row `y`. */
  method SplitRow(color: ImageData, mask: ImageData, y: nat, hasTransparency: bool, ghost src: seq<Byte>)
    returns (flag: bool)
    requires color.Valid() && mask.Valid() && color.data != mask.data
    requires color.width == mask.width && color.height == mask.height
    requires y < color.height
    requires SplitUpTo(color.data[..], mask.data[..], hasTransparency, src, y * color.width)
    modifies color.data, mask.data
    ensures SplitUpTo(color.data[..], mask.data[..], flag, src, y * color.width + color.width)
  {
    var w := color.width;
    flag := hasTransparency;
    ghost var p := y * w;
    var x := 0;
    while x < w
      invariant x <= w && p == y * w + x
      invariant SplitUpTo(color.data[..], mask.data[..], flag, src, p)
    {
      flag := SplitPixelAt(color, mask, x, y, flag, src, p);
      p := p + 1;
      x := x + 1;
    }
  }

  /** `splitChannels(imageData)`: the colour image, the mask and whether
      any pixel of the input is not fully opaque. Both outputs are fresh
      clones, so the input's bytes are left as they were. */
  method SplitChannels(image: ImageData) returns (color: ImageData, mask: ImageData, hasTransparency: bool)
    requires image.Valid()
    ensures fresh(color) && fresh(color.data) && fresh(mask) && fresh(mask.data)
    ensures color.Valid() && color.width == image.width && color.height == image.height
    ensures mask.Valid() && mask.width == image.width && mask.height == image.height
    ensures color.data[..] == Colored(image.data[..])
    ensures mask.data[..] == Masked(image.data[..])
    ensures hasTransparency <==> !Opaque(image.data[..])
  {
    ghost var src := image.data[..];
    color := CloneImageData(image);
    mask := CloneImageData(image);
    hasTransparency := false;
    SplitStart(src);
    var w, h := image.width, image.height;
    ghost var p := 0;
    var y := 0;
    while y < h
      invariant y <= h && p == y * w
      invariant SplitUpTo(color.data[..], mask.data[..], hasTransparency, src, p)
    {
      hasTransparency := SplitRow(color, mask, y, hasTransparency, src);
      assert (y + 1) * w == y * w + w;
      p := p + w;
      y := y + 1;
    }
    SplitDone(color.data[..], mask.data[..], hasTransparency, src, p);
  }

  /** `inputPNGPath.replace(/\.png$/i, replacement)`: a final `.png`, in
      any mix of cases, becomes `replacement`; any other path is kept. */
  function ReplacePng(path: string, replacement: string): (r: string)
  {
    if |path| >= 4 && Lower(path[|path| - 4..]) == ".png" then path[..|path| - 4] + replacement
    else path
  }

  /** The file name of the colour image. */
  const ColorSuffix := "-color.jpeg"
  /** The file name of the mask. */
  const MaskSuffix := "-mask.jpeg"

  /** A path ending in `.png` (any case) gets each suffix in its place, so
      the two outputs have different names; any other path is used as it
      is for both, so the mask, when written, replaces the colour image. */
  lemma OutputPaths(path: string)
    ensures var color, mask := ReplacePng(path, ColorSuffix), ReplacePng(path, MaskSuffix);
      if |path| >= 4 && Lower(path[|path| - 4..]) == ".png" then
        && color == path[..|path| - 4] + ColorSuffix
        && mask == path[..|path| - 4] + MaskSuffix
        && color != mask
      else
        color == path && mask == path
  {
    if |path| >= 4 && Lower(path[|path| - 4..]) == ".png" {
      var stem := path[..|path| - 4];
      assert (stem + ColorSuffix)[|stem| + 1] == 'c';
      assert (stem + MaskSuffix)[|stem| + 1] == 'm';
    }
  }

  /** Exactly the four spellings of `.png` are replaced. */
  lemma PngSpellings(path: string, replacement: string)
    requires |path| >= 4
    requires path[|path| - 4] == '.'
    requires path[|path| - 3] in {'p', 'P'} && path[|path| - 2] in {'n', 'N'} && path[|path| - 1] in {'g', 'G'}
    ensures ReplacePng(path, replacement) == path[..|path| - 4] + replacement
  {
    var e := path[|path| - 4..];
    assert Lower(e) == [LowerChar(e[0]), LowerChar(e[1]), LowerChar(e[2]), LowerChar(e[3])];
    assert Lower(e) == ".png";
  }

  /** One JPEG file the tool writes: its path and the image it holds. */
  datatype Jpeg = Jpeg(path: string, width: nat, height: nat, pixels: seq<Byte>)

  /** `pngToJPEGPair(inputPNGPath)` on the image read from that path: the
      files it writes, in order. The colour image is always written; the
      mask only when the input has a pixel that is not fully opaque. */
  method PngToJpegPair(inputPath: string, input: ImageData) returns (writes: seq<Jpeg>)
    requires input.Valid()
    ensures |writes| == if Opaque(input.data[..]) then 1 else 2
    ensures writes[0] == Jpeg(ReplacePng(inputPath, ColorSuffix), input.width, input.height, Colored(input.data[..]))
    ensures |writes| == 2 ==>
      writes[1] == Jpeg(ReplacePng(inputPath, MaskSuffix), input.width, input.height, Masked(input.data[..]))
  {
    var color, mask, hasTransparency := SplitChannels(input);
    var colorPath := ReplacePng(inputPath, ColorSuffix);
    var maskPath := ReplacePng(inputPath, MaskSuffix);
    writes := [Jpeg(colorPath, color.width, color.height, color.data[..])];
    if hasTransparency {
      writes := writes + [Jpeg(maskPath, mask.width, mask.height, mask.data[..])];
    }
  }
}
