/**
 The image objects of the three codecs: JPEG with a flat buffer of any number of channels, WebP
 with a flat RGBA buffer and 32-bit indices, PNG with one buffer per row.
 */
module ImageBuffers {
  import opened Wrappers
  import opened PixelRotation

  // ----- Bounds -----

  const MAX_IMAGE_PIXELS: nat := 16 * 1024 * 1024
  const SIZE_MAX: nat := 0xFFFF_FFFF_FFFF_FFFF

  predicate FitsInt(i: int) { -0x8000_0000 <= i < 0x8000_0000 }

  /** The decoded size of an RGBA image: refused when empty or over the limit, and never wrapped. */
  function DecodedByteSize(width: int, height: int, maximumBytes: nat): (r: Option<nat>)
    requires maximumBytes <= SIZE_MAX
    ensures r.Some? <==> width > 0 && height > 0 && width * height * 4 <= maximumBytes
    ensures r.Some? ==> r.value == width * height * 4
  {
    if width <= 0 || height <= 0 then None
    else
      ProductGuard(width, height);
      if width > SIZE_MAX / height then None
      else
        var pixels := width * height;
        if pixels > maximumBytes / 4 then None else Some(pixels * 4)
  }

  /** The division guard refuses exactly the products that do not fit. */
  lemma ProductGuard(width: nat, height: nat)
    requires height > 0
    ensures width > SIZE_MAX / height <==> width * height > SIZE_MAX
  {
    var q := SIZE_MAX / height;
    assert SIZE_MAX == q * height + SIZE_MAX % height;
    if width > q {
      Grows(q + 1, width, height);
    } else {
      Grows(width, q, height);
    }
  }

  /** Within the decoded size limit no index of the WebP loops leaves a 32-bit int. */
  lemma IndicesFit(angle: int, width: nat, height: nat, x: nat, y: nat, k: nat)
    requires DecodedByteSize(width, height, MAX_IMAGE_PIXELS * 4).Some?
    requires angle == 90 || angle == 180 || angle == 270
    requires x < width && y < height && k < 4
    ensures FitsInt(y * width) && FitsInt(Place(width, x, y)) && FitsInt(Place(width, x, y) * 4 + k)
    ensures FitsInt(Target(angle, width, height, x, y).1 * NewWidth(angle, width, height))
    ensures FitsInt(TargetPlace(angle, width, height, x, y)) && FitsInt(TargetPlace(angle, width, height, x, y) * 4 + k)
  {
    InRange(width, height, x, y);
    TargetInRange(angle, width, height, x, y);
  }

  // ----- JPEG -----

  class JpegImage {
    var data: array<Byte>
    var width: nat
    var height: nat
    var channels: nat

    ghost predicate Valid()
      reads this
    {
      data.Length == width * height * channels
    }

    ghost function View(): Picture
      reads this, data
    {
      FlatView(data[..], width, height, channels)
    }

    constructor (data: array<Byte>, width: nat, height: nat, channels: nat)
      requires data.Length == width * height * channels
      ensures Valid() && this.data == data && View() == FlatView(data[..], width, height, channels)
    {
      this.data, this.width, this.height, this.channels := data, width, height, channels;
    }

    method Rotate(angle: int) returns (status: Status)
      requires Valid()
      modifies this
      ensures Valid() && channels == old(channels)
      ensures status == if Turn(angle) then Ok else Unimplemented
      ensures Turn(angle) ==> View() == Rotated(old(View()), angle)
      ensures angle == 0 || !Turn(angle) ==> data == old(data) && View() == old(View())
      ensures data == old(data) || fresh(data)
    {
      var newWidth, newHeight := 0, 0;
      if angle == 90 || angle == 270 {
        newWidth, newHeight := height, width;
      } else if angle == 180 {
        newWidth, newHeight := width, height;
      } else if angle == 0 {
        NoTurn(View());
        return Ok;
      } else {
        return Unimplemented;
      }
      assert newWidth * newHeight * channels == width * height * channels;
      var newData := new Byte[newWidth * newHeight * channels](i => 0);
      var y := 0;
      while y < height
        invariant 0 <= y <= height && unchanged(this) && unchanged(data)
        invariant Copied(data[..], newData[..], channels, angle, width, height, 0, y)
      {
        var x := 0;
        while x < width
          invariant 0 <= x <= width && unchanged(this) && unchanged(data)
          invariant Copied(data[..], newData[..], channels, angle, width, height, x, y)
        {
          var d := if angle == 90 then x * newWidth + (newWidth - y - 1)
                   else if angle == 180 then (newHeight - y - 1) * newWidth + (newWidth - x - 1)
                   else (newHeight - x - 1) * newWidth + y;
          assert d == TargetPlace(angle, width, height, x, y);
          CopyTo(newData, d, data, angle, width, height, channels, x, y);
          x := x + 1;
        }
        NextRow(data[..], newData[..], channels, angle, width, height, y);
        y := y + 1;
      }
      AllCopied(data[..], newData[..], channels, angle, width, height);
      data := newData;
      width := newWidth;
      height := newHeight;
      return Ok;
    }

    method Greyscale(luma: (Byte, Byte, Byte) -> Byte)
      requires Valid()
      modifies data
      ensures Valid() && View() == Mapped(old(View()), GreyPass(luma))
    {
      if channels < 3 {
        FewChannels(data[..], width, height, channels, luma);
        return;
      }
      ghost var before, n := data[..], width * height;
      var i := 0;
      ghost var j := 0;
      while i < width * height * channels
        invariant 0 <= j <= n && i == j * channels
        invariant GreyedUpTo(before, data[..], channels, n, j, luma)
      {
        BufferBelow(n, channels, j);
        GreyOne(data, i, j, channels, n, luma);
        i := i + channels;
        j := j + 1;
      }
      BufferAbove(n, channels, j);
      AllGreyed(before, data[..], width, height, channels, luma);
    }

    method Invert()
      requires Valid()
      modifies data
      ensures Valid() && View() == Mapped(old(View()), InvertPass(channels))
    {
      ghost var before := data[..];
      var i := 0;
      while i < width * height * channels
        invariant 0 <= i <= data.Length
        invariant forall k :: 0 <= k < i ==> data[k] == 255 - before[k]
        invariant forall k :: i <= k < data.Length ==> data[k] == before[k]
      {
        data[i] := 255 - data[i];
        i := i + 1;
      }
      AllInverted(before, data[..], width, height, channels);
    }
  }

  /** One pixel of the double loop. */
  method CopyTo(dst: array<Byte>, d: nat, src: array<Byte>, ghost angle: int,
                width: nat, height: nat, channels: nat, x: nat, y: nat)
    requires dst != src && dst.Length == width * height * channels && src.Length == dst.Length
    requires Turn(angle) && x < width && y < height && d == TargetPlace(angle, width, height, x, y)
    requires Copied(src[..], dst[..], channels, angle, width, height, x, y)
    modifies dst
    ensures Copied(src[..], dst[..], channels, angle, width, height, x + 1, y)
  {
    InRange(width, height, x, y);
    TargetInRange(angle, width, height, x, y);
    ghost var before := dst[..];
    CopyPixel(dst, d, src, y * width + x, channels, width * height);
    CopyOne(src[..], before, dst[..], channels, angle, width, height, x, y);
  }

  lemma NextRow(src: seq<Byte>, dst: seq<Byte>, channels: nat, angle: int, width: nat, height: nat, y: nat)
    requires Turn(angle) && Copied(src, dst, channels, angle, width, height, width, y)
    ensures Copied(src, dst, channels, angle, width, height, 0, y + 1)
  {
    forall u, v | 0 <= u < width && 0 <= v < height && Before(u, v, 0, y + 1)
      ensures BytesOf(dst, channels, TargetPlace(angle, width, height, u, v)) == BytesOf(src, channels, Place(width, u, v))
    {
      assert Before(u, v, width, y);
    }
  }

  // ----- WebP -----

  class WebPImage {
    var data: array?<Byte>
    var width: nat
    var height: nat

    /** What a successful read leaves behind. */
    ghost predicate Valid()
      reads this
    {
      data != null ==> DecodedByteSize(width, height, MAX_IMAGE_PIXELS * 4) == Some(data.Length)
    }

    ghost function View(): Picture
      reads this, data
      requires data != null
    {
      FlatView(data[..], width, height, 4)
    }

    constructor ()
      ensures Valid() && data == null
    {
      data, width, height := null, 0, 0;
    }

    /** The end of read: the decoder has filled a buffer of the size asked for. */
    method Accept(decoded: array<Byte>, width: int, height: int) returns (status: Status)
      requires DecodedByteSize(width, height, MAX_IMAGE_PIXELS * 4) in {None, Some(decoded.Length)}
      requires Valid()
      modifies this
      ensures Valid()
      ensures status == Ok <==> width > 0 && height > 0 && width * height <= MAX_IMAGE_PIXELS
      ensures status == Ok ==> data == decoded && View() == FlatView(decoded[..], width, height, 4)
      ensures status != Ok ==> status == InvalidArgument && unchanged(this)
    {
      if DecodedByteSize(width, height, MAX_IMAGE_PIXELS * 4).None? {
        return InvalidArgument;
      }
      this.width, this.height, data := width, height, decoded;
      return Ok;
    }

    method Rotate(angle: int) returns (status: Status)
      requires Valid()
      modifies this
      ensures Valid()
      ensures status == if old(data) == null then InvalidArgument else if Turn(angle) then Ok else Unimplemented
      ensures status == Ok ==> data != null && View() == Rotated(old(View()), angle)
      ensures status != Ok || angle == 0 ==> unchanged(this)
      ensures data == old(data) || fresh(data)
    {
      if data == null {
        return InvalidArgument;
      }
      var rotatedWidth, rotatedHeight := 0, 0;
      if angle == 90 || angle == 270 {
        rotatedWidth, rotatedHeight := height, width;
      } else if angle == 180 {
        rotatedWidth, rotatedHeight := width, height;
      } else if angle == 0 {
        NoTurn(View());
        return Ok;
      } else {
        return Unimplemented;
      }
      var src: array<Byte> := data;
      assert rotatedWidth * rotatedHeight * 4 == width * height * 4;
      var rotated := new Byte[rotatedWidth * rotatedHeight * 4](i => 0);
      var y := 0;
      while y < height
        invariant 0 <= y <= height && unchanged(this) && unchanged(src)
        invariant Copied(src[..], rotated[..], 4, angle, width, height, 0, y)
      {
        var x := 0;
        while x < width
          invariant 0 <= x <= width && unchanged(this) && unchanged(src)
          invariant Copied(src[..], rotated[..], 4, angle, width, height, x, y)
        {
          var d := Destination(angle, width, height, rotatedWidth, x, y);
          CopyTo(rotated, d, src, angle, width, height, 4, x, y);
          x := x + 1;
        }
        NextRow(src[..], rotated[..], 4, angle, width, height, y);
        y := y + 1;
      }
      AllCopied(src[..], rotated[..], 4, angle, width, height);
      data := rotated;
      width := rotatedWidth;
      height := rotatedHeight;
      return Ok;
    }

    method Greyscale()
      requires Valid()
      modifies data
      ensures Valid()
      ensures data != null ==> View() == Mapped(old(View()), GreyPass(Average))
    {
      if data == null {
        return;
      }
      ghost var before, n := data[..], width * height;
      var i := 0;
      while i < width * height
        invariant 0 <= i <= n
        invariant GreyedUpTo(before, data[..], 4, n, i, Average)
      {
        GreyOne(data, i * 4, i, 4, n, Average);
        i := i + 1;
      }
      AllGreyed(before, data[..], width, height, 4, Average);
    }

    method Invert()
      requires Valid()
      modifies data
      ensures Valid()
      ensures data != null ==> View() == Mapped(old(View()), InvertPass(3))
    {
      if data == null {
        return;
      }
      ghost var before, n := data[..], width * height;
      var i := 0;
      while i < width * height
        invariant 0 <= i <= n
        invariant ColoursInvertedTo(before, data[..], i * 4)
      {
        ghost var was := data[..];
        data[i * 4] := 255 - data[i * 4];
        data[i * 4 + 1] := 255 - data[i * 4 + 1];
        data[i * 4 + 2] := 255 - data[i * 4 + 2];
        assert data[..] == was[i * 4 := 255 - was[i * 4]][i * 4 + 1 := 255 - was[i * 4 + 1]][i * 4 + 2 := 255 - was[i * 4 + 2]];
        InvertFour(before, was, i * 4);
        i := i + 1;
      }
      ColoursInverted(before, data[..], width, height);
    }
  }

  /** The WebP destination pixel; every index computed on the way, with any channel added, fits an int. */
  method Destination(angle: int, width: nat, height: nat, rotatedWidth: nat, x: nat, y: nat) returns (d: nat)
    requires DecodedByteSize(width, height, MAX_IMAGE_PIXELS * 4).Some?
    requires angle == 90 || angle == 180 || angle == 270
    requires x < width && y < height && rotatedWidth == NewWidth(angle, width, height)
    ensures d == TargetPlace(angle, width, height, x, y)
    ensures FitsInt(Place(width, x, y) * 4 + 3) && FitsInt(d * 4 + 3)
  {
    IndicesFit(angle, width, height, x, y, 3);
    if angle == 90 {
      d := x * rotatedWidth + (height - 1 - y);
    } else if angle == 180 {
      d := (height - 1 - y) * width + (width - 1 - x);
    } else {
      d := (width - 1 - x) * rotatedWidth + y;
    }
  }

  // ----- The colour passes on flat buffers -----

  /** A pass that maps the bytes of every pixel maps the picture. */
  lemma ViewMapped(before: seq<Byte>, now: seq<Byte>, width: nat, height: nat, channels: nat, f: Pixel -> Pixel)
    requires forall i :: 0 <= i < width * height ==> BytesOf(now, channels, i) == f(BytesOf(before, channels, i))
    ensures FlatView(now, width, height, channels) == Mapped(FlatView(before, width, height, channels), f)
  {
    var a, b := FlatView(now, width, height, channels), Mapped(FlatView(before, width, height, channels), f);
    forall i | 0 <= i < width * height ensures a.pixels[i] == b.pixels[i] {
    }
  }

  /** The colour bytes below a bound are inverted, the others are as they were. */
  ghost predicate ColoursInvertedTo(before: seq<Byte>, now: seq<Byte>, bound: nat)
  {
    && |now| == |before|
    && forall k :: 0 <= k < |now| ==> now[k] == if k < bound && k % 4 != 3 then 255 - before[k] else before[k]
  }

  lemma InvertFour(before: seq<Byte>, now: seq<Byte>, at: nat)
    requires at % 4 == 0 && at + 4 <= |now| && ColoursInvertedTo(before, now, at)
    ensures ColoursInvertedTo(
              before, now[at := 255 - now[at]][at + 1 := 255 - now[at + 1]][at + 2 := 255 - now[at + 2]], at + 4)
  {
  }

  /** The first j pixels are grey, the others are as they were. */
  ghost predicate GreyedUpTo(before: seq<Byte>, now: seq<Byte>, channels: nat, n: nat, j: nat,
                             luma: (Byte, Byte, Byte) -> Byte)
  {
    && |now| == |before| == n * channels
    && forall i :: 0 <= i < n ==>
                     BytesOf(now, channels, i)
                     == if i < j then Greyed(luma, BytesOf(before, channels, i)) else BytesOf(before, channels, i)
  }

  lemma BufferBelow(n: nat, channels: nat, j: nat)
    requires j * channels < n * channels
    ensures j < n
  {
    if n <= j {
      Grows(n, j, channels);
      assert false;
    }
  }

  lemma BufferAbove(n: nat, channels: nat, j: nat)
    requires j <= n && j * channels >= n * channels && channels > 0
    ensures j == n
  {
    if j < n {
      Apart(channels, j, n);
      assert false;
    }
  }

  /** Grey for one pixel, in place. */
  method GreyOne(data: array<Byte>, at: nat, ghost j: nat, ghost channels: nat, ghost n: nat,
                 luma: (Byte, Byte, Byte) -> Byte)
    requires data.Length == n * channels && j < n && channels >= 3 && at == j * channels
    modifies data
    ensures BytesOf(data[..], channels, j) == Greyed(luma, old(BytesOf(data[..], channels, j)))
    ensures forall i :: 0 <= i && i != j ==> BytesOf(data[..], channels, i) == old(BytesOf(data[..], channels, i))
  {
    BufferBounds(n, channels, j);
    ghost var before := data[..];
    var grey := luma(data[at], data[at + 1], data[at + 2]);
    data[at], data[at + 1], data[at + 2] := grey, grey, grey;
    assert data[..] == before[at := grey][at + 1 := grey][at + 2 := grey];
    GreyedInPlace(before, data[..], at, channels, j, luma);
    forall i | 0 <= i && i != j ensures BytesOf(data[..], channels, i) == BytesOf(before, channels, i) {
      OnlyPixel(before, data[..], channels, j, i);
    }
  }

  lemma GreyedInPlace(before: seq<Byte>, after: seq<Byte>, at: nat, channels: nat, j: nat,
                      luma: (Byte, Byte, Byte) -> Byte)
    requires channels >= 3 && at == j * channels && at + channels <= |before|
    requires
      var grey := luma(before[at], before[at + 1], before[at + 2]);
      after == before[at := grey][at + 1 := grey][at + 2 := grey]
    ensures BytesOf(after, channels, j) == Greyed(luma, BytesOf(before, channels, j))
  {
    var px := before[at..at + channels];
    assert px[0] == before[at] && px[1] == before[at + 1] && px[2] == before[at + 2];
    var now, then' := after[at..at + channels], Greyed(luma, px);
    forall k | 0 <= k < channels ensures now[k] == then'[k] {
    }
  }

  lemma AllGreyed(before: seq<Byte>, now: seq<Byte>, width: nat, height: nat, channels: nat,
                  luma: (Byte, Byte, Byte) -> Byte)
    requires GreyedUpTo(before, now, channels, width * height, width * height, luma)
    ensures FlatView(now, width, height, channels) == Mapped(FlatView(before, width, height, channels), GreyPass(luma))
  {
    ViewMapped(before, now, width, height, channels, GreyPass(luma));
  }

  lemma FewChannels(data: seq<Byte>, width: nat, height: nat, channels: nat, luma: (Byte, Byte, Byte) -> Byte)
    requires channels < 3
    ensures FlatView(data, width, height, channels)
            == Mapped(FlatView(data, width, height, channels), GreyPass(luma))
  {
  }

  lemma AllInverted(before: seq<Byte>, now: seq<Byte>, width: nat, height: nat, channels: nat)
    requires |now| == |before| == width * height * channels
    requires forall k :: 0 <= k < |now| ==> now[k] == 255 - before[k]
    ensures FlatView(now, width, height, channels) == Mapped(FlatView(before, width, height, channels), InvertPass(channels))
  {
    forall i | 0 <= i < width * height
      ensures BytesOf(now, channels, i) == InvertPass(channels)(BytesOf(before, channels, i))
    {
      BufferBounds(width * height, channels, i);
      AllInvertedAt(before, now, i * channels, channels);
    }
    ViewMapped(before, now, width, height, channels, InvertPass(channels));
  }

  lemma AllInvertedAt(before: seq<Byte>, now: seq<Byte>, at: nat, channels: nat)
    requires at + channels <= |before| == |now|
    requires forall k :: 0 <= k < |now| ==> now[k] == 255 - before[k]
    ensures now[at..at + channels] == Inverted(channels, before[at..at + channels])
  {
  }

  lemma ColoursInverted(before: seq<Byte>, now: seq<Byte>, width: nat, height: nat)
    requires |before| == width * height * 4 && ColoursInvertedTo(before, now, width * height * 4)
    ensures FlatView(now, width, height, 4) == Mapped(FlatView(before, width, height, 4), InvertPass(3))
  {
    forall i | 0 <= i < width * height
      ensures BytesOf(now, 4, i) == InvertPass(3)(BytesOf(before, 4, i))
    {
      ColoursInvertedAt(before, now, i * 4);
    }
    ViewMapped(before, now, width, height, 4, InvertPass(3));
  }

  lemma ColoursInvertedAt(before: seq<Byte>, now: seq<Byte>, at: nat)
    requires at % 4 == 0 && at + 4 <= |before| && ColoursInvertedTo(before, now, |before|)
    ensures now[at..at + 4] == Inverted(3, before[at..at + 4])
  {
    var a, b := now[at..at + 4], before[at..at + 4];
    assert a[0] == 255 - b[0] && a[1] == 255 - b[1] && a[2] == 255 - b[2] && a[3] == b[3];
  }

  /**
   Inverting every channel, as for JPEG, and inverting the first three, as for the other two,
   agree exactly on pictures without a fourth channel (or without pixels).
   */
  lemma InversionsAgree(p: Picture, channels: nat)
    requires forall i :: 0 <= i < |p.pixels| ==> |p.pixels[i]| == channels
    ensures Mapped(p, InvertPass(channels)) == Mapped(p, InvertPass(3))
            <==> channels <= 3 || p.pixels == []
  {
    var a, b := Mapped(p, InvertPass(channels)), Mapped(p, InvertPass(3));
    if channels <= 3 || p.pixels == [] {
      forall i | 0 <= i < |p.pixels| ensures a.pixels[i] == b.pixels[i] {
        assert Inverted(channels, p.pixels[i]) == Inverted(3, p.pixels[i]);
      }
    } else {
      assert a.pixels[0][3] == 255 - p.pixels[0][3] && b.pixels[0][3] == p.pixels[0][3];
    }
  }

  // ----- PNG -----

  class PngImage {
    var rows: seq<seq<Byte>>
    var width: nat
    var height: nat
    var containsData: bool

    ghost predicate Valid()
      reads this
    {
      containsData ==> Shaped(rows, width, height)
    }

    ghost function View(): Picture
      reads this
    {
      RowView(rows, width, height)
    }

    constructor (rows: seq<seq<Byte>>, width: nat, height: nat)
      requires Shaped(rows, width, height)
      ensures Valid() && containsData && View() == RowView(rows, width, height)
    {
      this.rows, this.width, this.height, containsData := rows, width, height, true;
    }

    /** Every pixel of the source goes where the transformation says. */
    method RotateImageImpl(newWidth: nat, newHeight: nat, transform: (int, int, int, int) -> (int, int), ghost angle: int)
      requires Valid() && containsData && Turn(angle)
      requires newWidth == NewWidth(angle, width, height) && newHeight == NewHeight(angle, width, height)
      requires forall x, y :: 0 <= x < width && 0 <= y < height ==>
                                transform(width, height, x, y) == Target(angle, width, height, x, y)
      modifies this
      ensures Valid() && containsData && View() == Rotated(old(View()), angle)
    {
      var src, srcWidth, srcHeight := rows, width, height;
      width, height := newWidth, newHeight;
      var rotated: seq<seq<Byte>> := seq(newHeight, i => seq(newWidth * 4, k => 0));
      var y := 0;
      while y < srcHeight
        invariant 0 <= y <= srcHeight && width == newWidth && height == newHeight && containsData
        invariant Shaped(rotated, newWidth, newHeight)
        invariant RowsCopied(src, rotated, angle, srcWidth, srcHeight, 0, y)
      {
        var x := 0;
        while x < srcWidth
          invariant 0 <= x <= srcWidth && width == newWidth && height == newHeight && containsData
          invariant Shaped(rotated, newWidth, newHeight)
          invariant RowsCopied(src, rotated, angle, srcWidth, srcHeight, x, y)
        {
          var (dstX, dstY) := transform(srcWidth, srcHeight, x, y);
          ghost var before := rotated;
          var row := rotated[dstY];
          rotated := rotated[dstY := row[..dstX * 4] + src[y][x * 4..x * 4 + 4] + row[dstX * 4 + 4..]];
          RowCopyOne(src, before, rotated, angle, srcWidth, srcHeight, x, y);
          x := x + 1;
        }
        y := y + 1;
      }
      AllRowsCopied(src, rotated, angle, srcWidth, srcHeight);
      rows := rotated;
    }

    method Rotate(angle: int) returns (status: Status)
      requires Valid()
      modifies this
      ensures Valid() && containsData == old(containsData)
      ensures status == if !containsData then InvalidArgument else if Turn(angle) then Ok else Unimplemented
      ensures status == Ok ==> View() == Rotated(old(View()), angle)
      ensures status != Ok || angle == 0 ==> unchanged(this)
    {
      if !containsData {
        return InvalidArgument;
      }
      if angle == 90 {
        RotateImageImpl(height, width, (w: int, h: int, x: int, y: int) => (h - 1 - y, x), 90);
      } else if angle == 180 {
        RotateImageImpl(width, height, (w: int, h: int, x: int, y: int) => (w - 1 - x, h - 1 - y), 180);
      } else if angle == 270 {
        RotateImageImpl(height, width, (w: int, h: int, x: int, y: int) => (y, w - 1 - x), 270);
      } else if angle == 0 {
        NoTurn(View());
      } else {
        return Unimplemented;
      }
      return Ok;
    }

    /** A pass over all pixels, row by row, in place. */
    method Greyscale(luma: (Byte, Byte, Byte) -> Byte)
      requires Valid()
      modifies this
      ensures Valid() && width == old(width) && height == old(height) && containsData == old(containsData)
      ensures !containsData ==> unchanged(this)
      ensures containsData ==> View() == Mapped(old(View()), GreyPass(luma))
    {
      if !containsData {
        return;
      }
      ghost var before := rows;
      var y := 0;
      while y < height
        invariant 0 <= y <= height && width == old(width) && height == old(height) && containsData
        invariant Shaped(rows, width, height) && RowsMapped(before, rows, width, height, 0, y, GreyPass(luma))
      {
        var x := 0;
        while x < width
          invariant 0 <= x <= width && 0 <= y < height && width == old(width) && height == old(height) && containsData
          invariant Shaped(rows, width, height) && RowsMapped(before, rows, width, height, x, y, GreyPass(luma))
        {
          var px := rows[y][x * 4..x * 4 + 4];
          var gray := luma(px[0], px[1], px[2]);
          ghost var was := rows;
          rows := rows[y := rows[y][..x * 4] + [gray, gray, gray, px[3]] + rows[y][x * 4 + 4..]];
          assert Greyed(luma, px) == [gray, gray, gray, px[3]];
          RowMapOne(before, was, rows, width, height, x, y, GreyPass(luma));
          x := x + 1;
        }
        y := y + 1;
      }
      AllRowsMapped(before, rows, width, height, GreyPass(luma));
    }

    method Invert()
      requires Valid()
      modifies this
      ensures Valid() && width == old(width) && height == old(height) && containsData == old(containsData)
      ensures !containsData ==> unchanged(this)
      ensures containsData ==> View() == Mapped(old(View()), InvertPass(3))
    {
      if !containsData {
        return;
      }
      ghost var before := rows;
      var y := 0;
      while y < height
        invariant 0 <= y <= height && width == old(width) && height == old(height) && containsData
        invariant Shaped(rows, width, height) && RowsMapped(before, rows, width, height, 0, y, InvertPass(3))
      {
        var x := 0;
        while x < width
          invariant 0 <= x <= width && 0 <= y < height && width == old(width) && height == old(height) && containsData
          invariant Shaped(rows, width, height) && RowsMapped(before, rows, width, height, x, y, InvertPass(3))
        {
          var px := rows[y][x * 4..x * 4 + 4];
          var flipped := [255 - px[0], 255 - px[1], 255 - px[2], px[3]];
          ghost var was := rows;
          rows := rows[y := rows[y][..x * 4] + flipped + rows[y][x * 4 + 4..]];
          assert Inverted(3, px) == flipped;
          RowMapOne(before, was, rows, width, height, x, y, InvertPass(3));
          x := x + 1;
        }
        y := y + 1;
      }
      AllRowsMapped(before, rows, width, height, InvertPass(3));
    }
  }

  // ----- Row buffers -----

  predicate Shaped(rows: seq<seq<Byte>>, width: nat, height: nat)
  {
    |rows| == height && forall y :: 0 <= y < height ==> |rows[y]| == width * 4
  }

  function RowPixel(rows: seq<seq<Byte>>, x: nat, y: nat): Pixel
  {
    if y < |rows| then BytesOf(rows[y], 4, x) else []
  }

  /** The picture in row buffers of four channels. */
  function RowView(rows: seq<seq<Byte>>, width: nat, height: nat): (p: Picture)
    ensures Whole(p)
  {
    Picture(width, height, seq(width * height, i requires 0 <= i < width * height => RowPixelAt(rows, width, height, i)))
  }

  function RowPixelAt(rows: seq<seq<Byte>>, width: nat, height: nat, i: nat): Pixel
    requires i < width * height
  {
    Coordinates(width, height, i);
    RowPixel(rows, i % width, i / width)
  }

  lemma RowViewAt(rows: seq<seq<Byte>>, width: nat, height: nat, x: nat, y: nat)
    requires x < width && y < height
    ensures PixelAt(RowView(rows, width, height), x, y) == RowPixel(rows, x, y)
  {
    InRange(width, height, x, y);
    SplitPlace(width, x, y);
  }

  /** Replacing the four bytes of one pixel in one row. */
  lemma RowUpdate(rows: seq<seq<Byte>>, width: nat, height: nat, x: nat, y: nat, px: Pixel, u: nat, v: nat)
    requires Shaped(rows, width, height) && x < width && y < height && |px| == 4 && u < width && v < height
    ensures
      var rows' := rows[y := rows[y][..x * 4] + px + rows[y][x * 4 + 4..]];
      && Shaped(rows', width, height)
      && RowPixel(rows', u, v) == if (u, v) == (x, y) then px else RowPixel(rows, u, v)
  {
    var row, row' := rows[y], rows[y][..x * 4] + px + rows[y][x * 4 + 4..];
    if v == y {
      if u == x {
        assert row'[x * 4..x * 4 + 4] == px;
      } else if u < x {
        assert row'[u * 4..u * 4 + 4] == row[u * 4..u * 4 + 4];
      } else {
        assert row'[u * 4..u * 4 + 4] == row[u * 4..u * 4 + 4];
      }
    }
  }

  /** The pixel has been copied to where it goes. */
  predicate InPlace(src: seq<seq<Byte>>, dst: seq<seq<Byte>>, angle: int, width: nat, height: nat, x: nat, y: nat)
    requires Turn(angle) && x < width && y < height
  {
    var t := Target(angle, width, height, x, y);
    RowPixel(dst, t.0, t.1) == RowPixel(src, x, y)
  }

  ghost predicate RowsCopied(
    src: seq<seq<Byte>>, dst: seq<seq<Byte>>, angle: int, width: nat, height: nat, x': nat, y': nat)
    requires Turn(angle)
  {
    forall x, y :: 0 <= x < width && 0 <= y < height && Before(x, y, x', y') ==>
                     InPlace(src, dst, angle, width, height, x, y)
  }

  lemma RowCopyOne(src: seq<seq<Byte>>, before: seq<seq<Byte>>, after: seq<seq<Byte>>,
                   angle: int, width: nat, height: nat, x: nat, y: nat)
    requires Turn(angle) && x < width && y < height && Shaped(src, width, height)
    requires Shaped(before, NewWidth(angle, width, height), NewHeight(angle, width, height))
    requires RowsCopied(src, before, angle, width, height, x, y)
    requires
      var t := Target(angle, width, height, x, y);
      after == before[t.1 := before[t.1][..t.0 * 4] + src[y][x * 4..x * 4 + 4] + before[t.1][t.0 * 4 + 4..]]
    ensures Shaped(after, NewWidth(angle, width, height), NewHeight(angle, width, height))
    ensures RowsCopied(src, after, angle, width, height, x + 1, y)
  {
    var w, h := NewWidth(angle, width, height), NewHeight(angle, width, height);
    var t := Target(angle, width, height, x, y);
    var px := RowPixel(src, x, y);
    forall u, v | 0 <= u < w && 0 <= v < h
      ensures RowPixel(after, u, v) == if (u, v) == t then px else RowPixel(before, u, v)
    {
      RowUpdate(before, w, h, t.0, t.1, px, u, v);
    }
    RowUpdate(before, w, h, t.0, t.1, px, t.0, t.1);
    PlacedOne(src, before, after, angle, width, height, x, y);
  }

  lemma PlacedOne(src: seq<seq<Byte>>, before: seq<seq<Byte>>, after: seq<seq<Byte>>,
                  angle: int, width: nat, height: nat, x: nat, y: nat)
    requires Turn(angle) && x < width && y < height
    requires RowsCopied(src, before, angle, width, height, x, y)
    requires forall u, v :: 0 <= u < NewWidth(angle, width, height) && 0 <= v < NewHeight(angle, width, height) ==>
                              RowPixel(after, u, v) == if (u, v) == Target(angle, width, height, x, y) then
                                                         RowPixel(src, x, y)
                                                       else RowPixel(before, u, v)
    ensures RowsCopied(src, after, angle, width, height, x + 1, y)
  {
    forall u, v | 0 <= u < width && 0 <= v < height && Before(u, v, x + 1, y)
      ensures InPlace(src, after, angle, width, height, u, v)
    {
      var t := Target(angle, width, height, u, v);
      if (u, v) != (x, y) {
        assert Before(u, v, x, y);
        assert InPlace(src, before, angle, width, height, u, v);
        TargetsDiffer(angle, width, height, x, y, u, v);
      }
      assert RowPixel(after, t.0, t.1) == RowPixel(src, u, v);
    }
  }

  lemma AllRowsCopied(src: seq<seq<Byte>>, dst: seq<seq<Byte>>, angle: int, width: nat, height: nat)
    requires Turn(angle) && RowsCopied(src, dst, angle, width, height, 0, height)
    ensures RowView(dst, NewWidth(angle, width, height), NewHeight(angle, width, height))
            == Rotated(RowView(src, width, height), angle)
  {
    var p := RowView(src, width, height);
    var w, h := NewWidth(angle, width, height), NewHeight(angle, width, height);
    var a, b := RowView(dst, w, h), Rotated(p, angle);
    forall x, y | 0 <= x < w && 0 <= y < h ensures PixelAt(a, x, y) == PixelAt(b, x, y) {
      RotatedAt(p, angle, x, y);
      var o := Origin(angle, width, height, x, y);
      RowViewAt(src, width, height, o.0, o.1);
      RowViewAt(dst, w, h, x, y);
      assert Before(o.0, o.1, 0, height);
      assert InPlace(src, dst, angle, width, height, o.0, o.1);
    }
    SamePicture(a, b);
  }

  ghost predicate RowsMapped(
    before: seq<seq<Byte>>, now: seq<seq<Byte>>, width: nat, height: nat, x': nat, y': nat, f: Pixel -> Pixel)
  {
    forall x, y :: 0 <= x < width && 0 <= y < height ==>
                     RowPixel(now, x, y)
                     == if Before(x, y, x', y') then f(RowPixel(before, x, y)) else RowPixel(before, x, y)
  }

  lemma RowMapOne(before: seq<seq<Byte>>, was: seq<seq<Byte>>, now: seq<seq<Byte>>, width: nat, height: nat,
                  x: nat, y: nat, f: Pixel -> Pixel)
    requires Shaped(was, width, height) && x < width && y < height
    requires RowsMapped(before, was, width, height, x, y, f)
    requires |f(RowPixel(was, x, y))| == 4
    requires now == was[y := was[y][..x * 4] + f(RowPixel(was, x, y)) + was[y][x * 4 + 4..]]
    ensures Shaped(now, width, height) && RowsMapped(before, now, width, height, x + 1, y, f)
  {
    RowUpdate(was, width, height, x, y, f(RowPixel(was, x, y)), x, y);
    forall u, v | 0 <= u < width && 0 <= v < height
      ensures RowPixel(now, u, v)
              == if Before(u, v, x + 1, y) then f(RowPixel(before, u, v)) else RowPixel(before, u, v)
    {
      RowUpdate(was, width, height, x, y, f(RowPixel(was, x, y)), u, v);
      assert RowPixel(was, u, v)
             == if Before(u, v, x, y) then f(RowPixel(before, u, v)) else RowPixel(before, u, v);
    }
  }

  lemma AllRowsMapped(before: seq<seq<Byte>>, now: seq<seq<Byte>>, width: nat, height: nat, f: Pixel -> Pixel)
    requires RowsMapped(before, now, width, height, 0, height, f)
    ensures RowView(now, width, height) == Mapped(RowView(before, width, height), f)
  {
    var p := RowView(before, width, height);
    var a, b := RowView(now, width, height), Mapped(p, f);
    forall x, y | 0 <= x < width && 0 <= y < height ensures PixelAt(a, x, y) == PixelAt(b, x, y) {
      RowViewAt(now, width, height, x, y);
      RowViewAt(before, width, height, x, y);
      InRange(width, height, x, y);
      assert Before(x, y, 0, height);
    }
    SamePicture(a, b);
  }

  // ----- All three -----

  /** From the same picture the three codecs produce the same picture, or refuse alike. */
  method TurnAll(jpeg: JpegImage, webp: WebPImage, png: PngImage, angle: int) returns (status: Status)
    requires jpeg.Valid() && webp.Valid() && png.Valid()
    requires jpeg.channels == 4 && webp.data != null && png.containsData
    requires jpeg.View() == webp.View() == png.View()
    requires webp.data != jpeg.data
    modifies jpeg, webp, png
    ensures webp.data != null && jpeg.View() == webp.View() == png.View()
    ensures status == if Turn(angle) then Ok else Unimplemented
  {
    status := jpeg.Rotate(angle);
    var second := webp.Rotate(angle);
    var third := png.Rotate(angle);
    assert second == status && third == status;
  }

  /** The order of the passes of processAndWrite does not matter: grey, turn and invert give one picture. */
  lemma PassOrderIsFree(p: Picture, luma: (Byte, Byte, Byte) -> Byte, channels: nat, angle: int)
    requires Whole(p) && Turn(angle)
    ensures
      var grey, invert := GreyPass(luma), InvertPass(channels);
      && Mapped(Rotated(Mapped(p, grey), angle), invert) == Rotated(Mapped(Mapped(p, grey), invert), angle)
      && Mapped(Rotated(Mapped(p, grey), angle), invert) == Mapped(Mapped(Rotated(p, angle), grey), invert)
  {
    PassesCommute(p, GreyPass(luma), angle);
    PassesCommute(Mapped(p, GreyPass(luma)), InvertPass(channels), angle);
  }
}
