/**
 Quarter-turn rotations of pictures, as three codecs do them on three buffer layouts, and the
 colour passes before and after them.  The reference is a picture of whole pixels.
 */
module PixelRotation {
  type Byte = b: nat | b < 256
  type Pixel = seq<Byte>

  datatype Status = Ok | Unimplemented | InvalidArgument

  // ----- Pictures -----

  datatype Picture = Picture(width: nat, height: nat, pixels: seq<Pixel>)

  predicate Whole(p: Picture) { |p.pixels| == p.width * p.height }

  /** The place of a pixel, row by row. */
  function Place(width: nat, x: nat, y: nat): nat { y * width + x }

  function PixelAt(p: Picture, x: nat, y: nat): Pixel
    requires Whole(p) && x < p.width && y < p.height
  {
    InRange(p.width, p.height, x, y);
    p.pixels[Place(p.width, x, y)]
  }

  predicate Turn(angle: int) { angle == 0 || angle == 90 || angle == 180 || angle == 270 }

  predicate Sideways(angle: int) { angle == 90 || angle == 270 }

  function NewWidth(angle: int, width: nat, height: nat): nat { if Sideways(angle) then height else width }

  function NewHeight(angle: int, width: nat, height: nat): nat { if Sideways(angle) then width else height }

  /** Where a pixel goes when a picture of this size is turned clockwise: the new column and row. */
  function Target(angle: int, width: nat, height: nat, x: nat, y: nat): (t: (nat, nat))
    requires Turn(angle) && x < width && y < height
    ensures t.0 < NewWidth(angle, width, height) && t.1 < NewHeight(angle, width, height)
  {
    if angle == 90 then (height - 1 - y, x)
    else if angle == 180 then (width - 1 - x, height - 1 - y)
    else if angle == 270 then (y, width - 1 - x)
    else (x, y)
  }

  /** Where the pixel at a place of the turned picture came from. */
  function Origin(angle: int, width: nat, height: nat, x': nat, y': nat): (o: (nat, nat))
    requires Turn(angle) && x' < NewWidth(angle, width, height) && y' < NewHeight(angle, width, height)
    ensures o.0 < width && o.1 < height
    ensures Target(angle, width, height, o.0, o.1) == (x', y')
  {
    if angle == 90 then (y', height - 1 - x')
    else if angle == 180 then (width - 1 - x', height - 1 - y')
    else if angle == 270 then (width - 1 - y', x')
    else (x', y')
  }

  /** The turned picture. */
  function Rotated(p: Picture, angle: int): (q: Picture)
    requires Whole(p) && Turn(angle)
    ensures Whole(q)
  {
    var w, h := NewWidth(angle, p.width, p.height), NewHeight(angle, p.width, p.height);
    Picture(w, h, seq(w * h, j requires 0 <= j < w * h => Gathered(p, angle, j)))
  }

  function Gathered(p: Picture, angle: int, j: nat): Pixel
    requires Whole(p) && Turn(angle)
    requires j < NewWidth(angle, p.width, p.height) * NewHeight(angle, p.width, p.height)
  {
    var w, h := NewWidth(angle, p.width, p.height), NewHeight(angle, p.width, p.height);
    Coordinates(w, h, j);
    var o := Origin(angle, p.width, p.height, j % w, j / w);
    PixelAt(p, o.0, o.1)
  }

  // ----- Index arithmetic -----

  lemma InRange(width: nat, height: nat, x: nat, y: nat)
    requires x < width && y < height
    ensures Place(width, x, y) < width * height
  {
    assert (y + 1) * width <= height * width;
  }

  lemma Coordinates(width: nat, height: nat, j: nat)
    requires j < width * height
    ensures width > 0 && j % width < width && j / width < height
    ensures Place(width, j % width, j / width) == j
  {
    var y := j / width;
    assert j == y * width + j % width;
    if height <= y {
      Grows(height, y, width);
      assert false;
    }
  }

  lemma Grows(a: nat, b: nat, width: nat)
    requires a <= b
    ensures a * width <= b * width
  {
  }

  lemma SplitPlace(width: nat, x: nat, y: nat)
    requires x < width
    ensures Place(width, x, y) / width == y && Place(width, x, y) % width == x
  {
    var j := Place(width, x, y);
    QuotientAndRest(j, width);
    SameSplit(width, j / width, j % width, y, x);
  }

  lemma QuotientAndRest(j: nat, width: nat)
    requires width > 0
    ensures j == j / width * width + j % width && j % width < width
  {
  }

  lemma SameSplit(width: nat, q: nat, r: nat, y: nat, x: nat)
    requires r < width && x < width && q * width + r == y * width + x
    ensures q == y && r == x
  {
    assert (q + 1) * width == q * width + width && (y + 1) * width == y * width + width;
    if q < y {
      Grows(q + 1, y, width);
    } else if q > y {
      Grows(y + 1, q, width);
    }
  }

  lemma PlaceIsInjective(width: nat, x: nat, y: nat, x': nat, y': nat)
    requires x < width && x' < width && Place(width, x, y) == Place(width, x', y')
    ensures x == x' && y == y'
  {
    SplitPlace(width, x, y);
    SplitPlace(width, x', y');
  }

  // ----- Rotation is what it should be -----

  lemma RotatedAt(p: Picture, angle: int, x': nat, y': nat)
    requires Whole(p) && Turn(angle)
    requires x' < Rotated(p, angle).width && y' < Rotated(p, angle).height
    ensures
      var o := Origin(angle, p.width, p.height, x', y');
      PixelAt(Rotated(p, angle), x', y') == PixelAt(p, o.0, o.1)
  {
    var q := Rotated(p, angle);
    InRange(q.width, q.height, x', y');
    SplitPlace(q.width, x', y');
  }

  lemma SamePicture(p: Picture, q: Picture)
    requires Whole(p) && Whole(q) && p.width == q.width && p.height == q.height
    requires forall x, y :: 0 <= x < p.width && 0 <= y < p.height ==> PixelAt(p, x, y) == PixelAt(q, x, y)
    ensures p == q
  {
    forall j | 0 <= j < |p.pixels| ensures p.pixels[j] == q.pixels[j] {
      var x, y := CoordinatesOf(p.width, p.height, j);
      assert PixelAt(p, x, y) == PixelAt(q, x, y);
    }
  }

  lemma CoordinatesOf(width: nat, height: nat, j: nat) returns (x: nat, y: nat)
    requires j < width * height
    ensures x < width && y < height && Place(width, x, y) == j
  {
    Coordinates(width, height, j);
    x, y := j % width, j / width;
  }

  lemma OriginsAdd(a: int, b: int, width: nat, height: nat, x: nat, y: nat)
    requires Turn(a) && Turn(b)
    requires
      var w, h := NewWidth(a, width, height), NewHeight(a, width, height);
      x < NewWidth(b, w, h) && y < NewHeight(b, w, h)
    ensures
      var w, h := NewWidth(a, width, height), NewHeight(a, width, height);
      var o := Origin(b, w, h, x, y);
      && Turn((a + b) % 360)
      && NewWidth((a + b) % 360, width, height) == NewWidth(b, w, h)
      && NewHeight((a + b) % 360, width, height) == NewHeight(b, w, h)
      && Origin((a + b) % 360, width, height, x, y) == Origin(a, width, height, o.0, o.1)
  {
    assert a + b < 360 ==> (a + b) % 360 == a + b;
    assert a + b >= 360 ==> (a + b) % 360 == a + b - 360;
  }

  lemma TurnsAddAt(p: Picture, a: int, b: int, x: nat, y: nat)
    requires Whole(p) && Turn(a) && Turn(b) && Turn((a + b) % 360)
    requires x < Rotated(Rotated(p, a), b).width && y < Rotated(Rotated(p, a), b).height
    ensures x < Rotated(p, (a + b) % 360).width && y < Rotated(p, (a + b) % 360).height
    ensures PixelAt(Rotated(Rotated(p, a), b), x, y) == PixelAt(Rotated(p, (a + b) % 360), x, y)
  {
    var first := Rotated(p, a);
    var o := Origin(b, first.width, first.height, x, y);
    OriginsAdd(a, b, p.width, p.height, x, y);
    RotatedAt(first, b, x, y);
    RotatedAt(p, a, o.0, o.1);
    RotatedAt(p, (a + b) % 360, x, y);
  }

  /** Turning twice is turning once by the sum: 90 and 270 cancel, four quarter turns are none. */
  lemma TurnsAdd(p: Picture, a: int, b: int)
    requires Whole(p) && Turn(a) && Turn(b)
    ensures Turn((a + b) % 360) && Rotated(Rotated(p, a), b) == Rotated(p, (a + b) % 360)
  {
    var first := Rotated(p, a);
    var twice, once := Rotated(first, b), Rotated(p, (a + b) % 360);
    forall x, y | 0 <= x < twice.width && 0 <= y < twice.height
      ensures PixelAt(twice, x, y) == PixelAt(once, x, y)
    {
      TurnsAddAt(p, a, b, x, y);
    }
    SamePicture(twice, once);
  }

  lemma NoTurn(p: Picture)
    requires Whole(p)
    ensures Rotated(p, 0) == p
  {
    var q := Rotated(p, 0);
    forall x, y | 0 <= x < q.width && 0 <= y < q.height ensures PixelAt(q, x, y) == PixelAt(p, x, y) {
      RotatedAt(p, 0, x, y);
    }
    SamePicture(q, p);
  }

  /** Every turn has its inverse, and so loses nothing. */
  lemma TurnBack(p: Picture, angle: int)
    requires Whole(p) && Turn(angle)
    ensures Rotated(Rotated(p, angle), (360 - angle) % 360) == p
  {
    var back := (360 - angle) % 360;
    assert Turn(back) && (angle + back) % 360 == 0;
    TurnsAdd(p, angle, back);
    NoTurn(p);
  }

  // ----- Which way round -----

  /** A row, read from left to right. */
  function RowOf(p: Picture, y: nat): seq<Pixel>
    requires Whole(p) && y < p.height
  {
    seq(p.width, x requires 0 <= x < p.width => PixelAt(p, x, y))
  }

  /** A column, read from top to bottom. */
  function ColumnOf(p: Picture, x: nat): seq<Pixel>
    requires Whole(p) && x < p.width
  {
    seq(p.height, y requires 0 <= y < p.height => PixelAt(p, x, y))
  }

  function Backwards<T>(s: seq<T>): seq<T> { seq(|s|, i requires 0 <= i < |s| => s[|s| - 1 - i]) }

  /** A quarter turn is clockwise: the first row, left to right, becomes the last column, top to bottom, and so on. */
  lemma QuarterTurnIsClockwise(p: Picture, y: nat)
    requires Whole(p) && y < p.height
    ensures Rotated(p, 90).width == p.height && Rotated(p, 90).height == p.width
    ensures ColumnOf(Rotated(p, 90), p.height - 1 - y) == RowOf(p, y)
  {
    var q := Rotated(p, 90);
    forall x | 0 <= x < p.width ensures ColumnOf(q, p.height - 1 - y)[x] == RowOf(p, y)[x] {
      RotatedAt(p, 90, p.height - 1 - y, x);
    }
  }

  /** Half a turn: the first row becomes the last one, backwards. */
  lemma HalfTurnIsUpsideDown(p: Picture, y: nat)
    requires Whole(p) && y < p.height
    ensures Rotated(p, 180).width == p.width && Rotated(p, 180).height == p.height
    ensures RowOf(Rotated(p, 180), p.height - 1 - y) == Backwards(RowOf(p, y))
  {
    var q := Rotated(p, 180);
    forall x | 0 <= x < p.width ensures RowOf(q, p.height - 1 - y)[x] == Backwards(RowOf(p, y))[x] {
      RotatedAt(p, 180, x, p.height - 1 - y);
    }
  }

  /** Three quarters are a quarter counterclockwise: the first row becomes the first column, backwards. */
  lemma ThreeQuartersAreCounterclockwise(p: Picture, y: nat)
    requires Whole(p) && y < p.height
    ensures Rotated(p, 270).width == p.height && Rotated(p, 270).height == p.width
    ensures ColumnOf(Rotated(p, 270), y) == Backwards(RowOf(p, y))
  {
    var q := Rotated(p, 270);
    forall x | 0 <= x < p.width ensures ColumnOf(q, y)[x] == Backwards(RowOf(p, y))[x] {
      RotatedAt(p, 270, y, x);
    }
  }

  /** Each place of the new picture is written from exactly one place of the old one. */
  lemma TargetIsABijection(angle: int, width: nat, height: nat, x: nat, y: nat, x': nat, y': nat)
    requires Turn(angle) && x < width && y < height
    requires x' < NewWidth(angle, width, height) && y' < NewHeight(angle, width, height)
    ensures Target(angle, width, height, x, y) == (x', y') <==> (x, y) == Origin(angle, width, height, x', y')
  {
    if Sideways(angle) {
    }
  }

  lemma TargetsDiffer(angle: int, width: nat, height: nat, x: nat, y: nat, u: nat, v: nat)
    requires Turn(angle) && x < width && y < height && u < width && v < height && (u, v) != (x, y)
    ensures Target(angle, width, height, u, v) != Target(angle, width, height, x, y)
  {
  }

  // ----- Passes over the colours -----

  /** The same function on every pixel. */
  function Mapped(p: Picture, f: Pixel -> Pixel): (q: Picture)
    ensures Whole(p) ==> Whole(q)
  {
    Picture(p.width, p.height, seq(|p.pixels|, i requires 0 <= i < |p.pixels| => f(p.pixels[i])))
  }

  /** A pass over the colours gives the same picture before and after a turn. */
  lemma PassesCommute(p: Picture, f: Pixel -> Pixel, angle: int)
    requires Whole(p) && Turn(angle)
    ensures Rotated(Mapped(p, f), angle) == Mapped(Rotated(p, angle), f)
  {
    var a, b := Rotated(Mapped(p, f), angle), Mapped(Rotated(p, angle), f);
    forall x, y | 0 <= x < a.width && 0 <= y < a.height ensures PixelAt(a, x, y) == PixelAt(b, x, y) {
      RotatedAt(Mapped(p, f), angle, x, y);
      RotatedAt(p, angle, x, y);
      InRange(a.width, a.height, x, y);
      var o := Origin(angle, p.width, p.height, x, y);
      InRange(p.width, p.height, o.0, o.1);
    }
    SamePicture(a, b);
  }

  /** Grey in the first three channels, by any formula on them. */
  function Greyed(luma: (Byte, Byte, Byte) -> Byte, px: Pixel): (q: Pixel)
    ensures |q| == |px| && (|px| < 3 ==> q == px)
    ensures forall i :: 0 <= i < |px| && |px| >= 3 ==> q[i] == if i < 3 then luma(px[0], px[1], px[2]) else px[i]
  {
    if |px| < 3 then px
    else
      var g := luma(px[0], px[1], px[2]);
      [g, g, g] + px[3..]
  }

  function Average(r: Byte, g: Byte, b: Byte): (grey: Byte)
    ensures 3 * grey <= r + g + b < 3 * grey + 3
  {
    (r + g + b) / 3
  }

  /** The weights of JPEG and PNG in exact arithmetic, cut to a whole number. */
  function Weighted(r: Byte, g: Byte, b: Byte): (grey: Byte)
    ensures (r <= g && r <= b ==> r <= grey) && (g <= r && g <= b ==> g <= grey) && (b <= r && b <= g ==> b <= grey)
    ensures (g <= r && b <= r ==> grey <= r) && (r <= g && b <= g ==> grey <= g) && (r <= b && g <= b ==> grey <= b)
  {
    (299 * r + 587 * g + 114 * b) / 1000
  }

  /** The first n channels inverted. */
  function Inverted(n: nat, px: Pixel): (q: Pixel)
    ensures |q| == |px| && forall i :: 0 <= i < |px| ==> if i < n then q[i] as int + px[i] as int == 255 else q[i] == px[i]
  {
    seq(|px|, i requires 0 <= i < |px| => if i < n then 255 - px[i] else px[i])
  }

  function GreyPass(luma: (Byte, Byte, Byte) -> Byte): Pixel -> Pixel { px => Greyed(luma, px) }

  function InvertPass(n: nat): Pixel -> Pixel { px => Inverted(n, px) }

  predicate KeepsGreyOf(luma: (Byte, Byte, Byte) -> Byte, r: Byte, g: Byte, b: Byte)
  {
    var v := luma(r, g, b);
    luma(v, v, v) == v
  }

  /** A formula leaves what it has made grey as it is. */
  ghost predicate KeepsItsGreys(luma: (Byte, Byte, Byte) -> Byte)
  {
    forall r: Byte, g: Byte, b: Byte :: KeepsGreyOf(luma, r, g, b)
  }

  lemma GreyTwiceAt(luma: (Byte, Byte, Byte) -> Byte, px: Pixel)
    requires KeepsItsGreys(luma)
    ensures Greyed(luma, Greyed(luma, px)) == Greyed(luma, px)
  {
    if |px| >= 3 {
      var g := luma(px[0], px[1], px[2]);
      var once := [g, g, g] + px[3..];
      assert KeepsGreyOf(luma, px[0], px[1], px[2]);
      assert once[3..] == px[3..];
    }
  }

  lemma GreyTwice(luma: (Byte, Byte, Byte) -> Byte, p: Picture)
    requires KeepsItsGreys(luma)
    ensures Mapped(Mapped(p, GreyPass(luma)), GreyPass(luma)) == Mapped(p, GreyPass(luma))
  {
    forall i | 0 <= i < |p.pixels| ensures Greyed(luma, Greyed(luma, p.pixels[i])) == Greyed(luma, p.pixels[i]) {
      GreyTwiceAt(luma, p.pixels[i]);
    }
    hide Greyed;
  }

  lemma GreyedTriple(luma: (Byte, Byte, Byte) -> Byte, r: Byte, g: Byte, b: Byte)
    ensures Greyed(luma, [r, g, b]) == [luma(r, g, b), luma(r, g, b), luma(r, g, b)]
  {
    assert [r, g, b][3..] == [];
  }

  lemma MappedOne(px: Pixel, f: Pixel -> Pixel)
    ensures Mapped(Picture(1, 1, [px]), f) == Picture(1, 1, [f(px)])
  {
  }

  lemma GreyTwiceDiffers(luma: (Byte, Byte, Byte) -> Byte, r: Byte, g: Byte, b: Byte) returns (p: Picture)
    requires !KeepsGreyOf(luma, r, g, b)
    ensures Mapped(Mapped(p, GreyPass(luma)), GreyPass(luma)) != Mapped(p, GreyPass(luma))
  {
    var v := luma(r, g, b);
    p := Picture(1, 1, [[r, g, b]]);
    GreyedTriple(luma, r, g, b);
    GreyedTriple(luma, v, v, v);
    MappedOne([r, g, b], GreyPass(luma));
    MappedOne([v, v, v], GreyPass(luma));
    hide Mapped;
    hide Greyed;
    assert [luma(v, v, v), luma(v, v, v), luma(v, v, v)][0] != [v, v, v][0];
  }

  /** Greying twice is greying once, on every picture, exactly if the formula keeps its own greys. */
  lemma GreyTwiceIff(luma: (Byte, Byte, Byte) -> Byte)
    ensures (forall p :: Mapped(Mapped(p, GreyPass(luma)), GreyPass(luma)) == Mapped(p, GreyPass(luma)))
            <==> KeepsItsGreys(luma)
  {
    hide Mapped;
    hide KeepsGreyOf;
    if KeepsItsGreys(luma) {
      forall p ensures Mapped(Mapped(p, GreyPass(luma)), GreyPass(luma)) == Mapped(p, GreyPass(luma)) {
        GreyTwice(luma, p);
      }
    } else {
      var r: Byte, g: Byte, b: Byte :| !KeepsGreyOf(luma, r, g, b);
      var p := GreyTwiceDiffers(luma, r, g, b);
    }
  }

  lemma BothKeepTheirGreys()
    ensures KeepsItsGreys(Average) && KeepsItsGreys(Weighted)
  {
  }

  /** Both formulas grey a picture once and for all. */
  lemma EachFormulaGreysOnce(p: Picture)
    ensures Mapped(Mapped(p, GreyPass(Average)), GreyPass(Average)) == Mapped(p, GreyPass(Average))
    ensures Mapped(Mapped(p, GreyPass(Weighted)), GreyPass(Weighted)) == Mapped(p, GreyPass(Weighted))
  {
    BothKeepTheirGreys();
    hide KeepsItsGreys;
    GreyTwice(Average, p);
    GreyTwice(Weighted, p);
  }

  /** Inverting is its own inverse, with or without the channels it leaves alone. */
  lemma InvertedTwice(n: nat, p: Picture)
    ensures Mapped(Mapped(p, InvertPass(n)), InvertPass(n)) == p
  {
    forall i | 0 <= i < |p.pixels| ensures Inverted(n, Inverted(n, p.pixels[i])) == p.pixels[i] {
    }
  }

  // ----- Flat buffers -----

  /** The bytes of pixel i in a buffer of so many channels. */
  function BytesOf(data: seq<Byte>, channels: nat, i: nat): Pixel
  {
    if i * channels + channels <= |data| then data[i * channels..i * channels + channels] else []
  }

  /** The picture in a flat buffer. */
  function FlatView(data: seq<Byte>, width: nat, height: nat, channels: nat): (p: Picture)
    ensures Whole(p)
  {
    Picture(width, height, seq(width * height, i requires 0 <= i < width * height => BytesOf(data, channels, i)))
  }

  lemma BufferBounds(n: nat, channels: nat, i: nat)
    requires i < n
    ensures i * channels + channels <= n * channels
  {
    assert (i + 1) * channels <= n * channels;
  }

  lemma Apart(channels: nat, i: nat, j: nat)
    requires i < j
    ensures i * channels + channels <= j * channels
  {
    assert (i + 1) * channels <= j * channels;
  }

  /** Changing pixel d alone. */
  lemma OnlyPixel(before: seq<Byte>, after: seq<Byte>, channels: nat, d: nat, i: nat)
    requires |after| == |before| && i != d
    requires forall k :: 0 <= k < |after| && !(d * channels <= k < d * channels + channels) ==> after[k] == before[k]
    ensures BytesOf(after, channels, i) == BytesOf(before, channels, i)
  {
    if i < d {
      Apart(channels, i, d);
    } else {
      Apart(channels, d, i);
    }
  }

  /** The innermost loop: one pixel, channel by channel. */
  method CopyPixel(dst: array<Byte>, d: nat, src: array<Byte>, s: nat, channels: nat, n: nat)
    requires dst != src && dst.Length == n * channels && src.Length == n * channels
    requires d < n && s < n
    modifies dst
    ensures BytesOf(dst[..], channels, d) == BytesOf(src[..], channels, s)
    ensures forall i :: 0 <= i && i != d ==> BytesOf(dst[..], channels, i) == old(BytesOf(dst[..], channels, i))
  {
    BufferBounds(n, channels, d);
    BufferBounds(n, channels, s);
    ghost var before := dst[..];
    var to, from := d * channels, s * channels;
    var c := 0;
    while c < channels
      invariant 0 <= c <= channels
      invariant dst[to..to + c] == src[from..from + c]
      invariant forall k :: 0 <= k < dst.Length && !(to <= k < to + channels) ==> dst[k] == before[k]
    {
      dst[to + c] := src[from + c];
      c := c + 1;
    }
    assert dst[..][to..to + channels] == dst[to..to + channels];
    assert src[..][from..from + channels] == src[from..from + channels];
    forall i | 0 <= i && i != d ensures BytesOf(dst[..], channels, i) == BytesOf(before, channels, i) {
      OnlyPixel(before, dst[..], channels, d, i);
    }
  }

  /** Row-major order of places. */
  predicate Before(x: nat, y: nat, x': nat, y': nat) { y < y' || (y == y' && x < x') }

  /** The place that the loops write to for a pixel. */
  function TargetPlace(angle: int, width: nat, height: nat, x: nat, y: nat): nat
    requires Turn(angle) && x < width && y < height
  {
    var t := Target(angle, width, height, x, y);
    Place(NewWidth(angle, width, height), t.0, t.1)
  }

  /** All pixels before (x', y') have been copied to where they go. */
  ghost predicate Copied(
    src: seq<Byte>, dst: seq<Byte>, channels: nat, angle: int, width: nat, height: nat, x': nat, y': nat)
    requires Turn(angle)
  {
    forall x, y :: 0 <= x < width && 0 <= y < height && Before(x, y, x', y') ==>
                     BytesOf(dst, channels, TargetPlace(angle, width, height, x, y))
                     == BytesOf(src, channels, Place(width, x, y))
  }

  lemma TargetInRange(angle: int, width: nat, height: nat, x: nat, y: nat)
    requires Turn(angle) && x < width && y < height
    ensures TargetPlace(angle, width, height, x, y) < width * height
  {
    var t := Target(angle, width, height, x, y);
    InRange(NewWidth(angle, width, height), NewHeight(angle, width, height), t.0, t.1);
    assert NewWidth(angle, width, height) * NewHeight(angle, width, height) == width * height;
  }

  /** Copying one more pixel overwrites no other. */
  lemma CopyOne(src: seq<Byte>, before: seq<Byte>, after: seq<Byte>,
                channels: nat, angle: int, width: nat, height: nat, x: nat, y: nat)
    requires Turn(angle) && x < width && y < height
    requires Copied(src, before, channels, angle, width, height, x, y)
    requires BytesOf(after, channels, TargetPlace(angle, width, height, x, y))
             == BytesOf(src, channels, Place(width, x, y))
    requires forall i :: 0 <= i && i != TargetPlace(angle, width, height, x, y) ==>
                           BytesOf(after, channels, i) == BytesOf(before, channels, i)
    ensures Copied(src, after, channels, angle, width, height, x + 1, y)
  {
    forall u, v | 0 <= u < width && 0 <= v < height && Before(u, v, x + 1, y)
      ensures BytesOf(after, channels, TargetPlace(angle, width, height, u, v))
              == BytesOf(src, channels, Place(width, u, v))
    {
      if (u, v) != (x, y) {
        assert Before(u, v, x, y);
        if TargetPlace(angle, width, height, u, v) == TargetPlace(angle, width, height, x, y) {
          var t, t' := Target(angle, width, height, u, v), Target(angle, width, height, x, y);
          PlaceIsInjective(NewWidth(angle, width, height), t.0, t.1, t'.0, t'.1);
          assert false;
        }
      }
    }
  }

  /** When all pixels are where they go, the new buffer holds the turned picture. */
  lemma AllCopied(src: seq<Byte>, dst: seq<Byte>, channels: nat, angle: int, width: nat, height: nat)
    requires Turn(angle) && Copied(src, dst, channels, angle, width, height, 0, height)
    ensures FlatView(dst, NewWidth(angle, width, height), NewHeight(angle, width, height), channels)
            == Rotated(FlatView(src, width, height, channels), angle)
  {
    var p := FlatView(src, width, height, channels);
    var w, h := NewWidth(angle, width, height), NewHeight(angle, width, height);
    var a, b := FlatView(dst, w, h, channels), Rotated(p, angle);
    forall x, y | 0 <= x < w && 0 <= y < h ensures PixelAt(a, x, y) == PixelAt(b, x, y) {
      RotatedAt(p, angle, x, y);
      var o := Origin(angle, width, height, x, y);
      InRange(width, height, o.0, o.1);
      InRange(w, h, x, y);
      assert Before(o.0, o.1, 0, height);
      assert TargetPlace(angle, width, height, o.0, o.1) == Place(w, x, y);
    }
    SamePicture(a, b);
  }
}
