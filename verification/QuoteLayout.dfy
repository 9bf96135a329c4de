/**
 The vertical layout of quote bubbles: a measuring pass decides the height of every bubble and of
 the canvas, a painting pass moves a cursor down.  The reference is a stack of blocks and gaps.
 Text sizes are what the text backend says, any numbers; arithmetic is exact.
 */
module QuoteLayout {
  // The source's constants, scaled.
  function PadX(scale: real): real { 16.0 * scale }
  function PadY(scale: real): real { 12.0 * scale }
  function Gap(scale: real): real { 5.0 * scale }
  function MinimumWidth(scale: real): real { 100.0 * scale }
  function ShadowPad(scale: real): real { 12.0 * scale }
  function ShadowPadTop(scale: real): real { 4.0 * scale }
  function SenderFont(scale: real): real { 18.0 * scale }
  function TextFont(scale: real): real { 24.0 * scale }
  function SmallestMedia(scale: real): real { 80.0 * scale }
  function VoiceHeight(scale: real): real { 44.0 * scale }

  datatype Size = Size(width: int, height: int)

  datatype Media = Media(width: nat, height: nat)

  /** A reply with the sizes its two lines of text get. */
  datatype Reply = NoReply | Reply(hasMedia: bool, name: Size, text: Size)

  /** What matters of a message, with the size that its sender line and text get. */
  datatype Message = Message(
    grouped: bool,
    sender: Size,
    reply: Reply,
    hasText: bool,
    text: Size,
    media: seq<Media>,
    voice: bool)

  datatype Metrics = Metrics(
    height: real,
    bubbleWidth: real,
    senderHeight: real,
    textHeight: real,
    replyHeight: real,
    replyMediaSize: real,
    mediaWidths: seq<real>,
    mediaHeights: seq<real>)

  function Max(a: real, b: real): real { if a < b then b else a }

  function Min(a: real, b: real): real { if b < a then b else a }

  function Clamp(x: real, low: real, high: real): real
    requires low <= high
  {
    if x < low then low else if high < x then high else x
  }

  function CeilInt(x: real): (i: int)
    ensures x <= i as real < x + 1.0
  {
    -(-x).Floor
  }

  function Ceil(x: real): (r: real)
    ensures x <= r < x + 1.0
  {
    CeilInt(x) as real
  }

  lemma CeilMonotone(x: real, y: real)
    requires x <= y
    ensures Ceil(x) <= Ceil(y)
  {
    hide CeilInt;
    var a, b := CeilInt(x), CeilInt(y);
    if a > b {
      assert false;
    }
  }

  // ----- The reference: a stack of blocks -----

  /** A block and the gap before it, which the first block does not get. */
  datatype Block = Block(gap: real, height: real)

  function MediaBlocks(heights: seq<real>, scale: real): seq<Block>
  {
    seq(|heights|, i requires 0 <= i < |heights| => Block(Gap(scale), heights[i]))
  }

  function VoiceBlocks(m: Message, scale: real): seq<Block>
  {
    if m.voice then [Block(Gap(scale), VoiceHeight(scale))] else []
  }

  /** Sender, reply, text. */
  function HeadBlocks(m: Message, x: Metrics, scale: real): seq<Block>
  {
    SenderBlocks(m, x.senderHeight) + ReplyBlocks(m, x.replyHeight, scale) + TextBlocks(m, x.textHeight)
  }

  function SenderBlocks(m: Message, height: real): seq<Block> { if m.grouped then [] else [Block(0.0, height)] }

  function ReplyBlocks(m: Message, height: real, scale: real): seq<Block>
  {
    if m.reply.NoReply? then [] else [Block(Gap(scale), height)]
  }

  function TextBlocks(m: Message, height: real): seq<Block> { if m.hasText then [Block(0.0, height)] else [] }

  function Blocks(m: Message, x: Metrics, scale: real): seq<Block>
  {
    HeadBlocks(m, x, scale) + MediaBlocks(x.mediaHeights, scale) + VoiceBlocks(m, scale)
  }

  /** The height of a stack. */
  function Extent(blocks: seq<Block>): real
  {
    if blocks == [] then 0.0
    else
      var last := blocks[|blocks| - 1];
      Extent(blocks[..|blocks| - 1]) + (if |blocks| > 1 then last.gap else 0.0) + last.height
  }

  /** Where the top of block i is, below the top of the stack. */
  function TopOf(blocks: seq<Block>, i: nat): real
    requires i < |blocks|
  {
    Extent(blocks[..i + 1]) - blocks[i].height
  }

  lemma ExtentAppend(blocks: seq<Block>, b: Block)
    ensures Extent(blocks + [b]) == Extent(blocks) + (if blocks == [] then 0.0 else b.gap) + b.height
  {
    assert (blocks + [b])[..|blocks|] == blocks;
  }

  // ----- Measuring -----

  function MediaHeight(media: Media, width: real, scale: real): real
    requires scale > 0.0
  {
    if media.width > 0 && media.height > 0 then
      Clamp(width * (media.height as real / media.width as real), SmallestMedia(scale), 220.0 * scale)
    else 160.0 * scale
  }

  lemma MediaHasHeight(media: Media, width: real, scale: real)
    requires scale > 0.0
    ensures 80.0 * scale <= MediaHeight(media, width, scale) <= 220.0 * scale
  {
  }

  function BaseMediaWidth(maximumContentWidth: real, scale: real): real
  {
    Max(SmallestMedia(scale), Min(maximumContentWidth, maximumContentWidth * 2.0 / 3.0))
  }

  function MediaWidth(media: Media, base: real, scale: real): real
    requires SmallestMedia(scale) <= base
  {
    if media.width > 0 then Clamp(media.width as real, SmallestMedia(scale), base) else base
  }

  /** The running height of a measured message. */
  datatype Measured = Measured(height: real, hasBlock: bool)

  method AppendBlock(s: Measured, blockHeight: real, blockGap: real, ghost top: real, ghost blocks: seq<Block>)
    returns (s': Measured)
    requires blockHeight > 0.0
    requires s == Measured(top + Extent(blocks), blocks != [])
    ensures s' == Measured(top + Extent(blocks + [Block(blockGap, blockHeight)]), true)
  {
    ExtentAppend(blocks, Block(blockGap, blockHeight));
    if blockHeight <= 0.0 {
      return s;
    }
    var height := s.height;
    if s.hasBlock {
      height := height + blockGap;
    }
    s' := Measured(height + blockHeight, true);
  }

  function SenderHeight(m: Message, scale: real): real { Max(SenderFont(scale), m.sender.height as real) }

  function PreviewSize(m: Message, scale: real): real
    requires m.reply.Reply?
  {
    if m.reply.hasMedia then 38.0 * scale else 0.0
  }

  function ReplyHeight(m: Message, scale: real): real
    requires m.reply.Reply?
  {
    Max(38.0 * scale, Max((m.reply.name.height + m.reply.text.height) as real + 8.0 * scale,
                          PreviewSize(m, scale) + 4.0 * scale))
  }

  function TextHeight(m: Message, scale: real): real { Max(TextFont(scale), m.text.height as real) }

  function SenderWidth(m: Message): real { m.sender.width as real }

  function ReplyWidth(m: Message, scale: real): real
    requires m.reply.Reply?
  {
    Max(m.reply.name.width as real, m.reply.text.width as real) + 20.0 * scale + PreviewSize(m, scale)
  }

  function TextWidth(m: Message): real { m.text.width as real }

  lemma HeadHasHeight(m: Message, scale: real)
    requires scale > 0.0
    ensures SenderHeight(m, scale) > 0.0 && TextHeight(m, scale) > 0.0 && (m.reply.Reply? ==> ReplyHeight(m, scale) > 0.0)
  {
  }

  /** What measuring decides about sender, reply and text; nothing for those that are not there. */
  predicate MeasuresHead(m: Message, scale: real, x: Metrics)
  {
    && x.senderHeight == (if m.grouped then 0.0 else SenderHeight(m, scale))
    && x.replyHeight == (if m.reply.NoReply? then 0.0 else ReplyHeight(m, scale))
    && x.replyMediaSize == (if m.reply.NoReply? then 0.0 else PreviewSize(m, scale))
    && x.textHeight == (if m.hasText then TextHeight(m, scale) else 0.0)
  }

  /** What measuring decides about some media. */
  predicate SizesOf(media: seq<Media>, widths: seq<real>, heights: seq<real>, base: real, scale: real)
    requires scale > 0.0 && SmallestMedia(scale) <= base
  {
    && |widths| == |heights| == |media|
    && forall i :: 0 <= i < |media| ==>
                     && widths[i] == MediaWidth(media[i], base, scale)
                     && heights[i] == MediaHeight(media[i], widths[i], scale)
  }

  predicate MeasuresMedia(m: Message, base: real, scale: real, x: Metrics)
    requires scale > 0.0 && SmallestMedia(scale) <= base
  {
    SizesOf(m.media, x.mediaWidths, x.mediaHeights, base, scale)
  }

  lemma OneMoreSize(media: seq<Media>, i: nat, widths: seq<real>, heights: seq<real>, base: real, scale: real)
    requires scale > 0.0 && SmallestMedia(scale) <= base && i < |media|
    requires SizesOf(media[..i], widths, heights, base, scale)
    ensures
      var width := MediaWidth(media[i], base, scale);
      SizesOf(media[..i + 1], widths + [width], heights + [MediaHeight(media[i], width, scale)], base, scale)
  {
    hide MediaWidth, MediaHeight;
    assert media[..i + 1] == media[..i] + [media[i]];
  }

  // the widths that a bubble has to have room for

  function SenderWidths(m: Message): seq<real> { if m.grouped then [] else [SenderWidth(m)] }

  function ReplyWidths(m: Message, scale: real): seq<real>
  {
    if m.reply.NoReply? then [] else [ReplyWidth(m, scale)]
  }

  function TextWidths(m: Message): seq<real> { if m.hasText then [TextWidth(m)] else [] }

  function HeadWidths(m: Message, scale: real): seq<real> { SenderWidths(m) + ReplyWidths(m, scale) + TextWidths(m) }

  function VoiceWidths(m: Message, maximumContentWidth: real, scale: real): seq<real>
  {
    if m.voice then [Min(maximumContentWidth, 260.0 * scale)] else []
  }

  function Widths(m: Message, x: Metrics, maximumBubbleWidth: real, scale: real): seq<real>
  {
    HeadWidths(m, scale) + x.mediaWidths + VoiceWidths(m, ContentWidth(maximumBubbleWidth, scale), scale)
  }

  /** The least width, zero or more, that none of these exceeds. */
  ghost predicate IsWidest(natural: real, widths: seq<real>)
  {
    && natural >= 0.0 && (natural == 0.0 || natural in widths)
    && forall w :: w in widths ==> w <= natural
  }

  lemma WidestOfMore(natural: real, widths: seq<real>, w: real)
    requires IsWidest(natural, widths)
    ensures IsWidest(Max(natural, w), widths + [w])
  {
    assert (widths + [w])[|widths|] == w;
  }

  /** The bubble that content of some width asks for: with its padding, within the limits, in whole units. */
  function Needed(width: real, maximumBubbleWidth: real, scale: real): real
  {
    Ceil(Max(MinimumWidth(scale), Min(width + 2.0 * PadX(scale), maximumBubbleWidth)))
  }

  /** The bubble is as wide as each block asks for, and no wider than one of them, or the empty bubble, does. */
  ghost predicate FitsTheBlocks(m: Message, x: Metrics, maximumBubbleWidth: real, scale: real)
  {
    var widths := Widths(m, x, maximumBubbleWidth, scale);
    && x.bubbleWidth >= Needed(0.0, maximumBubbleWidth, scale)
    && (forall w :: w in widths ==> x.bubbleWidth >= Needed(w, maximumBubbleWidth, scale))
    && (|| x.bubbleWidth == Needed(0.0, maximumBubbleWidth, scale)
        || exists w :: w in widths && x.bubbleWidth == Needed(w, maximumBubbleWidth, scale))
  }

  lemma NeededIsWithinLimits(width: real, maximumBubbleWidth: real, scale: real)
    requires maximumBubbleWidth >= MinimumWidth(scale)
    ensures MinimumWidth(scale) <= Needed(width, maximumBubbleWidth, scale) <= Ceil(maximumBubbleWidth)
  {
    CeilMonotone(Max(MinimumWidth(scale), Min(width + 2.0 * PadX(scale), maximumBubbleWidth)), maximumBubbleWidth);
  }

  lemma NeededGrows(a: real, b: real, maximumBubbleWidth: real, scale: real)
    requires a <= b
    ensures Needed(a, maximumBubbleWidth, scale) <= Needed(b, maximumBubbleWidth, scale)
  {
    CeilMonotone(Max(MinimumWidth(scale), Min(a + 2.0 * PadX(scale), maximumBubbleWidth)),
                 Max(MinimumWidth(scale), Min(b + 2.0 * PadX(scale), maximumBubbleWidth)));
  }

  lemma WidestFits(m: Message, x: Metrics, maximumBubbleWidth: real, scale: real, natural: real)
    requires IsWidest(natural, Widths(m, x, maximumBubbleWidth, scale))
    requires x.bubbleWidth == Needed(natural, maximumBubbleWidth, scale)
    ensures FitsTheBlocks(m, x, maximumBubbleWidth, scale)
  {
    NeededGrows(0.0, natural, maximumBubbleWidth, scale);
    forall w | w in Widths(m, x, maximumBubbleWidth, scale) ensures x.bubbleWidth >= Needed(w, maximumBubbleWidth, scale) {
      NeededGrows(w, natural, maximumBubbleWidth, scale);
    }
  }

  function ContentWidth(maximumBubbleWidth: real, scale: real): real
  {
    Max(1.0, maximumBubbleWidth - 2.0 * PadX(scale))
  }

  /** The metrics of a measured message. */
  ghost predicate Measures(m: Message, maximumBubbleWidth: real, scale: real, x: Metrics)
    requires scale > 0.0
  {
    && MeasuresHead(m, scale, x)
    && MeasuresMedia(m, BaseMediaWidth(ContentWidth(maximumBubbleWidth, scale), scale), scale, x)
    && x.height == Ceil(2.0 * PadY(scale) + Extent(Blocks(m, x, scale)))
    && FitsTheBlocks(m, x, maximumBubbleWidth, scale)
  }

  /** The running height and width after some blocks. */
  ghost predicate Running(s: Measured, natural: real, top: real, blocks: seq<Block>, widths: seq<real>)
  {
    s == Measured(top + Extent(blocks), blocks != []) && IsWidest(natural, widths)
  }

  lemma NothingMore(s: Measured, natural: real, top: real, blocks: seq<Block>, widths: seq<real>)
    requires Running(s, natural, top, blocks, widths)
    ensures Running(s, natural, top, blocks + [], widths + [])
  {
    assert blocks + [] == blocks && widths + [] == widths;
  }

  /** A block whose width counts for the bubble. */
  method AppendWideBlock(s: Measured, natural: real, width: real, blockHeight: real, blockGap: real,
                         ghost top: real, ghost blocks: seq<Block>, ghost widths: seq<real>)
    returns (s': Measured, natural': real)
    requires blockHeight > 0.0 && Running(s, natural, top, blocks, widths)
    ensures s'.hasBlock && Running(s', natural', top, blocks + [Block(blockGap, blockHeight)], widths + [width])
  {
    WidestOfMore(natural, widths, width);
    natural' := Max(natural, width);
    s' := AppendBlock(s, blockHeight, blockGap, top, blocks);
  }

  method MeasureSender(m: Message, scale: real, s: Measured, natural: real,
                       ghost top: real, ghost blocks: seq<Block>, ghost widths: seq<real>)
    returns (s': Measured, natural': real, height: real)
    requires scale > 0.0 && Running(s, natural, top, blocks, widths)
    ensures height == if m.grouped then 0.0 else SenderHeight(m, scale)
    ensures Running(s', natural', top, blocks + SenderBlocks(m, height), widths + SenderWidths(m))
  {
    HeadHasHeight(m, scale);
    hide Running, SenderHeight, SenderWidth;
    s', natural', height := s, natural, 0.0;
    if !m.grouped {
      height := SenderHeight(m, scale);
      s', natural' := AppendWideBlock(s, natural, SenderWidth(m), height, 0.0, top, blocks, widths);
    } else {
      NothingMore(s, natural, top, blocks, widths);
    }
  }

  method MeasureReply(m: Message, scale: real, s: Measured, natural: real,
                      ghost top: real, ghost blocks: seq<Block>, ghost widths: seq<real>)
    returns (s': Measured, natural': real, height: real, preview: real)
    requires scale > 0.0 && Running(s, natural, top, blocks, widths)
    ensures height == if m.reply.NoReply? then 0.0 else ReplyHeight(m, scale)
    ensures preview == if m.reply.NoReply? then 0.0 else PreviewSize(m, scale)
    ensures Running(s', natural', top, blocks + ReplyBlocks(m, height, scale), widths + ReplyWidths(m, scale))
  {
    HeadHasHeight(m, scale);
    hide Running, ReplyHeight, ReplyWidth, PreviewSize;
    s', natural', height, preview := s, natural, 0.0, 0.0;
    if m.reply.Reply? {
      preview := PreviewSize(m, scale);
      height := ReplyHeight(m, scale);
      s', natural' := AppendWideBlock(s, natural, ReplyWidth(m, scale), height, Gap(scale), top, blocks, widths);
    } else {
      NothingMore(s, natural, top, blocks, widths);
    }
  }

  method MeasureText(m: Message, scale: real, s: Measured, natural: real,
                     ghost top: real, ghost blocks: seq<Block>, ghost widths: seq<real>)
    returns (s': Measured, natural': real, height: real)
    requires scale > 0.0 && Running(s, natural, top, blocks, widths)
    ensures height == if m.hasText then TextHeight(m, scale) else 0.0
    ensures Running(s', natural', top, blocks + TextBlocks(m, height), widths + TextWidths(m))
  {
    HeadHasHeight(m, scale);
    hide Running, TextHeight, TextWidth;
    s', natural', height := s, natural, 0.0;
    if m.hasText {
      height := TextHeight(m, scale);
      s', natural' := AppendWideBlock(s, natural, TextWidth(m), height, 0.0, top, blocks, widths);
    } else {
      NothingMore(s, natural, top, blocks, widths);
    }
  }

  /** The first part: sender, reply and text. */
  method MeasureHead(m: Message, scale: real, ghost top: real, start: Measured)
    returns (x: Metrics, s: Measured, natural: real)
    requires scale > 0.0 && start == Measured(top, false)
    ensures MeasuresHead(m, scale, x) && x.mediaWidths == x.mediaHeights == []
    ensures Running(s, natural, top, HeadBlocks(m, x, scale), HeadWidths(m, scale))
  {
    assert Running(start, 0.0, top, [], []);
    hide Running, SenderBlocks, ReplyBlocks, TextBlocks, SenderWidths, ReplyWidths, TextWidths;
    hide SenderHeight, ReplyHeight, TextHeight, PreviewSize;
    var senderHeight, replyHeight, replyMediaSize, textHeight;
    ghost var blocks, widths;
    s, natural, senderHeight := MeasureSender(m, scale, start, 0.0, top, [], []);
    blocks, widths := [] + SenderBlocks(m, senderHeight), [] + SenderWidths(m);
    s, natural, replyHeight, replyMediaSize := MeasureReply(m, scale, s, natural, top, blocks, widths);
    blocks, widths := blocks + ReplyBlocks(m, replyHeight, scale), widths + ReplyWidths(m, scale);
    s, natural, textHeight := MeasureText(m, scale, s, natural, top, blocks, widths);
    x := Metrics(0.0, 0.0, senderHeight, textHeight, replyHeight, replyMediaSize, [], []);
    assert [] + SenderBlocks(m, senderHeight) == SenderBlocks(m, senderHeight) && [] + SenderWidths(m) == SenderWidths(m);
    assert blocks + TextBlocks(m, textHeight) == HeadBlocks(m, x, scale);
  }

  method MeasureMessage(m: Message, maximumBubbleWidth: real, scale: real) returns (x: Metrics)
    requires scale > 0.0 && maximumBubbleWidth >= MinimumWidth(scale)
    ensures Measures(m, maximumBubbleWidth, scale, x)
  {
    var maximumContentWidth := ContentWidth(maximumBubbleWidth, scale);
    ghost var top := 2.0 * PadY(scale);
    var s, natural;
    x, s, natural := MeasureHead(m, scale, top, Measured(2.0 * PadY(scale), false));
    ghost var head, widths := HeadBlocks(m, x, scale), HeadWidths(m, scale);
    s, natural, x := MeasureMedia(m, x, BaseMediaWidth(maximumContentWidth, scale), scale, natural, s, top, head, widths);
    ghost var measured := x;
    assert HeadBlocks(m, x, scale) == head && MeasuresHead(m, scale, x);
    assert Solid(m, x) by { MeasuredIsSolid(m, x, BaseMediaWidth(maximumContentWidth, scale), scale); }
    hide MeasuresHead, MeasuresMedia, Running, HeadBlocks, HeadWidths, Extent, Measures, Solid;
    s, natural := MeasureVoice(m, maximumContentWidth, scale, s, natural, top, head, x, widths + x.mediaWidths);
    x := x.(bubbleWidth := BubbleWidth(natural, maximumBubbleWidth, scale), height := Ceil(Max(s.height, 2.0 * PadY(scale))));
    MeasureConcludes(m, measured, x, maximumBubbleWidth, scale, s, natural);
  }

  lemma MeasuredIsSolid(m: Message, x: Metrics, base: real, scale: real)
    requires scale > 0.0 && SmallestMedia(scale) <= base
    requires MeasuresHead(m, scale, x) && MeasuresMedia(m, base, scale, x)
    ensures Solid(m, x)
  {
    HeadHasHeight(m, scale);
    forall i | 0 <= i < |x.mediaHeights| ensures x.mediaHeights[i] > 0.0 {
      MediaHasHeight(m.media[i], x.mediaWidths[i], scale);
    }
  }

  /** The last part. */
  method MeasureVoice(m: Message, maximumContentWidth: real, scale: real, s: Measured, natural: real,
                      ghost top: real, ghost head: seq<Block>, ghost x: Metrics, ghost widths: seq<real>)
    returns (s': Measured, natural': real)
    requires scale > 0.0 && head == HeadBlocks(m, x, scale)
    requires Running(s, natural, top, head + MediaBlocks(x.mediaHeights, scale), widths)
    ensures Running(s', natural', top, Blocks(m, x, scale), widths + VoiceWidths(m, maximumContentWidth, scale))
  {
    s', natural' := s, natural;
    VoiceIsLast(m, x, scale, head);
    if m.voice {
      s', natural' := AppendWideBlock(s, natural, Min(maximumContentWidth, 260.0 * scale), VoiceHeight(scale), Gap(scale),
                                      top, head + MediaBlocks(x.mediaHeights, scale), widths);
    } else {
      assert widths + VoiceWidths(m, maximumContentWidth, scale) == widths;
    }
  }

  function BubbleWidth(natural: real, maximumBubbleWidth: real, scale: real): real
    requires maximumBubbleWidth >= MinimumWidth(scale)
  {
    Ceil(Clamp(natural + 2.0 * PadX(scale), MinimumWidth(scale), maximumBubbleWidth))
  }

  lemma MeasureConcludes(m: Message, parts: Metrics, x: Metrics, maximumBubbleWidth: real, scale: real,
                         s: Measured, natural: real)
    requires scale > 0.0 && maximumBubbleWidth >= MinimumWidth(scale)
    requires MeasuresHead(m, scale, parts) && Solid(m, parts)
    requires MeasuresMedia(m, BaseMediaWidth(ContentWidth(maximumBubbleWidth, scale), scale), scale, parts)
    requires Running(s, natural, 2.0 * PadY(scale), Blocks(m, parts, scale), Widths(m, parts, maximumBubbleWidth, scale))
    requires x == parts.(bubbleWidth := BubbleWidth(natural, maximumBubbleWidth, scale),
                         height := Ceil(Max(s.height, 2.0 * PadY(scale))))
    ensures Measures(m, maximumBubbleWidth, scale, x)
  {
    ExtentIsPositive(m, parts, scale);
    assert HeadBlocks(m, x, scale) == HeadBlocks(m, parts, scale);
    assert Widths(m, x, maximumBubbleWidth, scale) == Widths(m, parts, maximumBubbleWidth, scale);
    assert x.bubbleWidth == Needed(natural, maximumBubbleWidth, scale);
    WidestFits(m, x, maximumBubbleWidth, scale, natural);
  }

  lemma VoiceIsLast(m: Message, x: Metrics, scale: real, head: seq<Block>)
    requires head == HeadBlocks(m, x, scale)
    ensures
      var before := head + MediaBlocks(x.mediaHeights, scale);
      Blocks(m, x, scale) == if m.voice then before + [Block(Gap(scale), VoiceHeight(scale))] else before
  {
  }

  lemma MediaBlocksAppend(head: seq<Block>, heights: seq<real>, height: real, scale: real)
    ensures head + MediaBlocks(heights + [height], scale)
            == (head + MediaBlocks(heights, scale)) + [Block(Gap(scale), height)]
  {
  }

  /** The loop over the media of a message. */
  method MeasureMedia(m: Message, x: Metrics, base: real, scale: real, natural: real, s: Measured,
                      ghost top: real, ghost head: seq<Block>, ghost before: seq<real>)
    returns (s': Measured, natural': real, x': Metrics)
    requires scale > 0.0 && SmallestMedia(scale) <= base && x.mediaWidths == x.mediaHeights == []
    requires Running(s, natural, top, head, before)
    ensures x' == x.(mediaWidths := x'.mediaWidths, mediaHeights := x'.mediaHeights)
    ensures MeasuresMedia(m, base, scale, x')
    ensures Running(s', natural', top, head + MediaBlocks(x'.mediaHeights, scale), before + x'.mediaWidths)
  {
    assert head + MediaBlocks([], scale) == head && before + [] == before;
    assert SizesOf(m.media[..0], [], [], base, scale);
    hide MediaHeight, MediaWidth, MediaBlocks, SizesOf, Running;
    var widths, heights: seq<real> := [], [];
    s', natural' := s, natural;
    for i := 0 to |m.media|
      invariant SizesOf(m.media[..i], widths, heights, base, scale)
      invariant Running(s', natural', top, head + MediaBlocks(heights, scale), before + widths)
    {
      var mediaWidth := MediaWidth(m.media[i], base, scale);
      var blockHeight := MediaHeight(m.media[i], mediaWidth, scale);
      ghost var above := head + MediaBlocks(heights, scale);
      MediaBlocksAppend(head, heights, blockHeight, scale);
      assert (before + widths) + [mediaWidth] == before + (widths + [mediaWidth]);
      MediaHasHeight(m.media[i], mediaWidth, scale);
      OneMoreSize(m.media, i, widths, heights, base, scale);
      s', natural' := AppendWideBlock(s', natural', mediaWidth, blockHeight, Gap(scale), top, above, before + widths);
      widths := widths + [mediaWidth];
      heights := heights + [blockHeight];
    }
    assert m.media[..|m.media|] == m.media;
    x' := x.(mediaWidths := widths, mediaHeights := heights);
  }

  /** Every block of a measured message has some height. */
  predicate Solid(m: Message, x: Metrics)
  {
    && (!m.grouped ==> x.senderHeight > 0.0) && (m.reply.Reply? ==> x.replyHeight > 0.0)
    && (m.hasText ==> x.textHeight > 0.0) && forall i :: 0 <= i < |x.mediaHeights| ==> x.mediaHeights[i] > 0.0
  }

  lemma {:induction false} StackGrows(blocks: seq<Block>)
    requires forall i :: 0 <= i < |blocks| ==> blocks[i].gap >= 0.0 && blocks[i].height > 0.0
    ensures Extent(blocks) >= 0.0
  {
    if blocks != [] {
      StackGrows(blocks[..|blocks| - 1]);
    }
  }

  lemma BlocksAreSolid(m: Message, x: Metrics, scale: real)
    requires scale > 0.0 && Solid(m, x)
    ensures forall i :: 0 <= i < |Blocks(m, x, scale)| ==>
                          Blocks(m, x, scale)[i].gap >= 0.0 && Blocks(m, x, scale)[i].height > 0.0
  {
    var head, media, voice := HeadBlocks(m, x, scale), MediaBlocks(x.mediaHeights, scale), VoiceBlocks(m, scale);
    assert forall i :: 0 <= i < |head| ==> head[i].gap >= 0.0 && head[i].height > 0.0;
    forall i | 0 <= i < |media| ensures media[i].gap >= 0.0 && media[i].height > 0.0 {
      assert media[i] == Block(Gap(scale), x.mediaHeights[i]) && x.mediaHeights[i] > 0.0;
    }
    assert forall i :: 0 <= i < |voice| ==> voice[i].gap >= 0.0 && voice[i].height > 0.0;
  }

  lemma ExtentIsPositive(m: Message, x: Metrics, scale: real)
    requires scale > 0.0 && Solid(m, x)
    ensures Extent(Blocks(m, x, scale)) >= 0.0
  {
    BlocksAreSolid(m, x, scale);
    StackGrows(Blocks(m, x, scale));
  }

  // ----- Painting -----

  datatype Painted = Painted(top: real, height: real)

  /** The blocks of a stack, painted from a given top down. */
  function Stacked(blocks: seq<Block>, top: real): (r: seq<Painted>)
    ensures |r| == |blocks|
  {
    if blocks == [] then []
    else
      var n := |blocks| - 1;
      Stacked(blocks[..n], top) + [Painted(top + Extent(blocks) - blocks[n].height, blocks[n].height)]
  }

  lemma {:induction false} StackedAt(blocks: seq<Block>, top: real, i: nat)
    requires i < |blocks|
    ensures Stacked(blocks, top)[i] == Painted(top + TopOf(blocks, i), blocks[i].height)
  {
    var n := |blocks| - 1;
    if i < n {
      StackedAt(blocks[..n], top, i);
      assert blocks[..n][..i + 1] == blocks[..i + 1];
    } else {
      assert blocks[..i + 1] == blocks;
    }
  }

  lemma StackedAppend(blocks: seq<Block>, b: Block, top: real)
    ensures Stacked(blocks + [b], top)
            == Stacked(blocks, top) + [Painted(top + Extent(blocks) + (if blocks == [] then 0.0 else b.gap), b.height)]
  {
    ExtentAppend(blocks, b);
    assert (blocks + [b])[..|blocks|] == blocks;
  }

  /** Where the brush is. */
  datatype Brush = Brush(cursorY: real, hasBlock: bool, painted: seq<Painted>)

  /** The brush after painting a stack. */
  predicate HasPainted(b: Brush, blocks: seq<Block>, top: real)
  {
    b == Brush(top + Extent(blocks), blocks != [], Stacked(blocks, top))
  }

  method PaintBlock(b: Brush, gap: real, height: real, ghost blocks: seq<Block>, ghost top: real) returns (b': Brush)
    requires HasPainted(b, blocks, top)
    ensures HasPainted(b', blocks + [Block(gap, height)], top)
  {
    ExtentAppend(blocks, Block(gap, height));
    StackedAppend(blocks, Block(gap, height), top);
    var cursorY := b.cursorY;
    if b.hasBlock {
      cursorY := cursorY + gap;
    }
    var painted := b.painted + [Painted(cursorY, height)];
    b' := Brush(cursorY + height, true, painted);
  }

  /** The first part: sender, reply and text. */
  method DrawHead(m: Message, x: Metrics, y: real, scale: real, replyDecodes: bool) returns (ok: bool, b: Brush)
    ensures ok <==> (m.reply.Reply? && m.reply.hasMedia ==> replyDecodes)
    ensures ok ==> HasPainted(b, HeadBlocks(m, x, scale), y + PadY(scale))
  {
    ghost var top := y + PadY(scale);
    ghost var blocks: seq<Block> := [];
    b := Brush(y + PadY(scale), false, []);
    if !m.grouped {
      b := PaintBlock(b, 0.0, x.senderHeight, blocks, top);
      blocks := blocks + [Block(0.0, x.senderHeight)];
    }
    if m.reply.Reply? {
      if m.reply.hasMedia && !replyDecodes {
        return false, b;
      }
      b := PaintBlock(b, Gap(scale), x.replyHeight, blocks, top);
      blocks := blocks + [Block(Gap(scale), x.replyHeight)];
    }
    if m.hasText {
      b := PaintBlock(b, 0.0, x.textHeight, blocks, top);
      blocks := blocks + [Block(0.0, x.textHeight)];
    }
    assert blocks == HeadBlocks(m, x, scale);
    return true, b;
  }

  /** The loop over the media of a message. */
  method DrawMedia(x: Metrics, scale: real, start: Brush, decodes: seq<bool>, ghost head: seq<Block>, ghost top: real)
    returns (ok: bool, b: Brush)
    requires |x.mediaHeights| == |decodes| && HasPainted(start, head, top)
    ensures ok <==> forall i :: 0 <= i < |decodes| ==> decodes[i]
    ensures ok ==> HasPainted(b, head + MediaBlocks(x.mediaHeights, scale), top)
  {
    b := start;
    ghost var blocks := head;
    assert head + MediaBlocks([], scale) == head;
    for i := 0 to |decodes|
      invariant blocks == head + MediaBlocks(x.mediaHeights[..i], scale) && HasPainted(b, blocks, top)
      invariant forall j :: 0 <= j < i ==> decodes[j]
    {
      if !decodes[i] {
        return false, b;
      }
      b := PaintBlock(b, Gap(scale), x.mediaHeights[i], blocks, top);
      blocks := blocks + [Block(Gap(scale), x.mediaHeights[i])];
      assert MediaBlocks(x.mediaHeights[..i + 1], scale)
             == MediaBlocks(x.mediaHeights[..i], scale) + [Block(Gap(scale), x.mediaHeights[i])];
    }
    assert x.mediaHeights[..|decodes|] == x.mediaHeights;
    return true, b;
  }

  /**
   Paints a message; decodes tells which of its media can be decoded, the reply's preview apart.
   What follows the last block is never asked for, so the voice does not move the cursor.
   */
  method DrawMessage(m: Message, x: Metrics, y: real, scale: real, replyDecodes: bool, decodes: seq<bool>)
    returns (ok: bool, painted: seq<Painted>)
    requires |x.mediaHeights| == |m.media| == |decodes|
    ensures ok <==> (m.reply.Reply? && m.reply.hasMedia ==> replyDecodes) && forall i :: 0 <= i < |decodes| ==> decodes[i]
    ensures ok ==> painted == Stacked(Blocks(m, x, scale), y + PadY(scale))
  {
    ghost var top, head := y + PadY(scale), HeadBlocks(m, x, scale);
    var b;
    ok, b := DrawHead(m, x, y, scale, replyDecodes);
    if !ok {
      return false, b.painted;
    }
    ok, b := DrawMedia(x, scale, b, decodes, head, top);
    if !ok {
      return false, b.painted;
    }
    VoiceIsLast(m, x, scale, head);
    if m.voice {
      b := PaintBlock(b, Gap(scale), VoiceHeight(scale), head + MediaBlocks(x.mediaHeights, scale), top);
    }
    return true, b.painted;
  }

  // ----- The two passes agree -----

  lemma StackedIsOrdered(blocks: seq<Block>, top: real, i: nat)
    requires i < |blocks|
    requires forall j :: 0 <= j < |blocks| ==> blocks[j].gap >= 0.0 && blocks[j].height > 0.0
    ensures Stacked(blocks, top)[i].top >= top
    ensures i > 0 ==>
              Stacked(blocks, top)[i - 1].top + Stacked(blocks, top)[i - 1].height <= Stacked(blocks, top)[i].top
    ensures i == |blocks| - 1 ==> Stacked(blocks, top)[i].top + Stacked(blocks, top)[i].height == top + Extent(blocks)
  {
    StackedAt(blocks, top, i);
    StackGrows(blocks[..i]);
    assert blocks[..i + 1][..i] == blocks[..i];
    if i > 0 {
      StackedAt(blocks, top, i - 1);
    }
  }

  /**
   A measured message painted anywhere: its blocks lie one below the other inside the padding of the
   bubble, and the last one ends at the lower padding, less than the rounding of one unit above it.
   */
  lemma MeasureAndPaintAgree(m: Message, x: Metrics, maximumBubbleWidth: real, scale: real, y: real)
    requires scale > 0.0 && Measures(m, maximumBubbleWidth, scale, x)
    ensures
      var painted := Stacked(Blocks(m, x, scale), y + PadY(scale));
      var floor := y + x.height - PadY(scale);
      && (forall i :: 0 <= i < |painted| ==> painted[i].top >= y + PadY(scale))
      && (forall i :: 0 < i < |painted| ==> painted[i - 1].top + painted[i - 1].height <= painted[i].top)
      && (painted != [] ==>
            var last := painted[|painted| - 1];
            floor - 1.0 < last.top + last.height <= floor)
  {
    var blocks := Blocks(m, x, scale);
    assert Solid(m, x);
    BlocksAreSolid(m, x, scale);
    var painted := Stacked(blocks, y + PadY(scale));
    forall i | 0 <= i < |painted| ensures painted[i].top >= y + PadY(scale) {
      StackedIsOrdered(blocks, y + PadY(scale), i);
    }
    forall i | 0 < i < |painted| ensures painted[i - 1].top + painted[i - 1].height <= painted[i].top {
      StackedIsOrdered(blocks, y + PadY(scale), i);
    }
    if painted != [] {
      StackedIsOrdered(blocks, y + PadY(scale), |painted| - 1);
    }
  }

  /** A bubble is at least as wide as the empty one and at most as wide as bubbles may be, rounded up. */
  lemma BubbleIsWithinLimits(m: Message, x: Metrics, maximumBubbleWidth: real, scale: real)
    requires maximumBubbleWidth >= MinimumWidth(scale) && FitsTheBlocks(m, x, maximumBubbleWidth, scale)
    ensures MinimumWidth(scale) <= x.bubbleWidth <= Ceil(maximumBubbleWidth)
  {
    hide Needed, Widths, Ceil;
    var w :| x.bubbleWidth == Needed(w, maximumBubbleWidth, scale);
    NeededIsWithinLimits(w, maximumBubbleWidth, scale);
  }

  /** A medium fits between the side paddings exactly if the widest bubble, rounded up, has room for it. */
  lemma MediumFitsIff(m: Message, x: Metrics, maximumBubbleWidth: real, scale: real, i: nat)
    requires maximumBubbleWidth >= MinimumWidth(scale)
    requires scale > 0.0 && Measures(m, maximumBubbleWidth, scale, x) && i < |m.media|
    ensures x.mediaWidths[i] <= x.bubbleWidth - 2.0 * PadX(scale)
            <==> x.mediaWidths[i] + 2.0 * PadX(scale) <= Ceil(maximumBubbleWidth)
  {
    var w := x.mediaWidths[i];
    assert w in Widths(m, x, maximumBubbleWidth, scale) by {
      assert (HeadWidths(m, scale) + x.mediaWidths)[|HeadWidths(m, scale)| + i] == w;
    }
    assert x.bubbleWidth >= Needed(w, maximumBubbleWidth, scale);
    BubbleIsWithinLimits(m, x, maximumBubbleWidth, scale);
  }

  /** If the widest bubble has room for the smallest medium, it has room for the widest one. */
  lemma WidestMediaFit(maximumBubbleWidth: real, scale: real)
    requires scale > 0.0 && maximumBubbleWidth >= MinimumWidth(scale)
    ensures SmallestMedia(scale) + 2.0 * PadX(scale) <= Ceil(maximumBubbleWidth) ==>
              BaseMediaWidth(ContentWidth(maximumBubbleWidth, scale), scale) + 2.0 * PadX(scale) <= Ceil(maximumBubbleWidth)
  {
    assert CeilInt(maximumBubbleWidth) >= 1;
  }

  /**
   Media fit between the side paddings of their bubble, whatever the message and the medium, exactly if
   the widest bubble, rounded up, has room for the smallest medium: 112 units of the scale.
   */
  lemma MediaFitTheBubble(m: Message, x: Metrics, maximumBubbleWidth: real, scale: real, i: nat)
    requires scale > 0.0 && maximumBubbleWidth >= MinimumWidth(scale)
    requires Measures(m, maximumBubbleWidth, scale, x) && i < |m.media|
    ensures x.mediaWidths[i] <= x.bubbleWidth - 2.0 * PadX(scale) <==> 112.0 * scale <= Ceil(maximumBubbleWidth)
  {
    MediumFitsIff(m, x, maximumBubbleWidth, scale, i);
    WidestMediaFit(maximumBubbleWidth, scale);
    var base := BaseMediaWidth(ContentWidth(maximumBubbleWidth, scale), scale);
    assert x.mediaWidths[i] == MediaWidth(m.media[i], base, scale);
    assert SmallestMedia(scale) <= x.mediaWidths[i] <= base;
  }

  // ----- What the metrics come to -----

  /** There is room for content of this width between the side paddings, or the bubble is as wide as bubbles may be. */
  predicate HasRoom(x: Metrics, width: real, maximumBubbleWidth: real, scale: real)
  {
    x.bubbleWidth >= width + 32.0 * scale || x.bubbleWidth == Ceil(maximumBubbleWidth)
  }

  /** The bubble is just what content of this width asks for. */
  predicate IsFor(x: Metrics, width: real, maximumBubbleWidth: real, scale: real)
  {
    if width + 32.0 * scale <= maximumBubbleWidth then x.bubbleWidth == Ceil(width + 32.0 * scale)
    else x.bubbleWidth == Ceil(maximumBubbleWidth)
  }

  lemma NeededHasRoom(x: Metrics, width: real, maximumBubbleWidth: real, scale: real)
    requires maximumBubbleWidth >= 100.0 * scale && x.bubbleWidth <= Ceil(maximumBubbleWidth)
    ensures x.bubbleWidth >= Needed(width, maximumBubbleWidth, scale) ==> HasRoom(x, width, maximumBubbleWidth, scale)
    ensures x.bubbleWidth == Needed(width, maximumBubbleWidth, scale) ==>
              x.bubbleWidth == Ceil(100.0 * scale) || IsFor(x, width, maximumBubbleWidth, scale)
  {
  }

  function ReplyLineWidth(m: Message, line: Size, scale: real): real
    requires m.reply.Reply?
  {
    line.width as real + 20.0 * scale + if m.reply.hasMedia then 38.0 * scale else 0.0
  }

  function VoiceLineWidth(maximumBubbleWidth: real, scale: real): real
  {
    Min(260.0 * scale, Max(1.0, maximumBubbleWidth - 32.0 * scale))
  }

  /** The bubble has room for every block with its padding, or is as wide as bubbles may be. */
  lemma BubbleHoldsEveryBlock(m: Message, x: Metrics, maximumBubbleWidth: real, scale: real)
    requires scale > 0.0 && maximumBubbleWidth >= 100.0 * scale && Measures(m, maximumBubbleWidth, scale, x)
    ensures !m.grouped ==> HasRoom(x, m.sender.width as real, maximumBubbleWidth, scale)
    ensures m.reply.Reply? ==>
              && HasRoom(x, ReplyLineWidth(m, m.reply.name, scale), maximumBubbleWidth, scale)
              && HasRoom(x, ReplyLineWidth(m, m.reply.text, scale), maximumBubbleWidth, scale)
    ensures m.hasText ==> HasRoom(x, m.text.width as real, maximumBubbleWidth, scale)
    ensures forall i :: 0 <= i < |x.mediaWidths| ==> HasRoom(x, x.mediaWidths[i], maximumBubbleWidth, scale)
    ensures m.voice ==> HasRoom(x, VoiceLineWidth(maximumBubbleWidth, scale), maximumBubbleWidth, scale)
  {
    var widths := Widths(m, x, maximumBubbleWidth, scale);
    BubbleIsWithinLimits(m, x, maximumBubbleWidth, scale);
    MembersOfWidths(m, x, maximumBubbleWidth, scale);
    forall w | w in widths ensures HasRoom(x, w, maximumBubbleWidth, scale) {
      NeededHasRoom(x, w, maximumBubbleWidth, scale);
    }
    if m.reply.Reply? {
      var name, text := ReplyLineWidth(m, m.reply.name, scale), ReplyLineWidth(m, m.reply.text, scale);
      assert Max(name, text) in widths && HasRoom(x, Max(name, text), maximumBubbleWidth, scale);
    }
    hide Measures, Widths, Ceil;
  }

  lemma MembersOfWidths(m: Message, x: Metrics, maximumBubbleWidth: real, scale: real)
    ensures
      forall w :: w in Widths(m, x, maximumBubbleWidth, scale) <==>
                  || (!m.grouped && w == m.sender.width as real)
                  || (m.reply.Reply? && w == Max(ReplyLineWidth(m, m.reply.name, scale), ReplyLineWidth(m, m.reply.text, scale)))
                  || (m.hasText && w == m.text.width as real)
                  || w in x.mediaWidths
                  || (m.voice && w == VoiceLineWidth(maximumBubbleWidth, scale))
  {
    forall w: real
      ensures w in Widths(m, x, maximumBubbleWidth, scale) <==>
              || w in SenderWidths(m) || w in ReplyWidths(m, scale) || w in TextWidths(m) || w in x.mediaWidths
              || w in VoiceWidths(m, ContentWidth(maximumBubbleWidth, scale), scale)
    {
    }
  }

  /** And it is no wider than the empty bubble, or than just one of the blocks asks for. */
  lemma BubbleIsNoWider(m: Message, x: Metrics, maximumBubbleWidth: real, scale: real)
    requires scale > 0.0 && maximumBubbleWidth >= 100.0 * scale && Measures(m, maximumBubbleWidth, scale, x)
    ensures
      || x.bubbleWidth == Ceil(100.0 * scale)
      || (!m.grouped && IsFor(x, m.sender.width as real, maximumBubbleWidth, scale))
      || (m.reply.Reply? && (|| IsFor(x, ReplyLineWidth(m, m.reply.name, scale), maximumBubbleWidth, scale)
                             || IsFor(x, ReplyLineWidth(m, m.reply.text, scale), maximumBubbleWidth, scale)))
      || (m.hasText && IsFor(x, m.text.width as real, maximumBubbleWidth, scale))
      || (exists w :: w in x.mediaWidths && IsFor(x, w, maximumBubbleWidth, scale))
      || (m.voice && IsFor(x, VoiceLineWidth(maximumBubbleWidth, scale), maximumBubbleWidth, scale))
  {
    BubbleIsWithinLimits(m, x, maximumBubbleWidth, scale);
    MembersOfWidths(m, x, maximumBubbleWidth, scale);
    NeededHasRoom(x, 0.0, maximumBubbleWidth, scale);
    var widths := Widths(m, x, maximumBubbleWidth, scale);
    assert x.bubbleWidth == Needed(0.0, maximumBubbleWidth, scale) ==> x.bubbleWidth == Ceil(100.0 * scale);
    if w :| w in widths && x.bubbleWidth == Needed(w, maximumBubbleWidth, scale) {
      NeededHasRoom(x, w, maximumBubbleWidth, scale);
    }
    hide Measures, Widths, Ceil, Needed;
  }

  /** The metrics of a message are determined. */
  lemma MeasuresDetermines(m: Message, x: Metrics, y: Metrics, maximumBubbleWidth: real, scale: real)
    requires scale > 0.0 && Measures(m, maximumBubbleWidth, scale, x) && Measures(m, maximumBubbleWidth, scale, y)
    ensures x == y
  {
    assert x.mediaWidths == y.mediaWidths;
    assert x.mediaHeights == y.mediaHeights;
    assert Blocks(m, x, scale) == Blocks(m, y, scale);
    assert Widths(m, x, maximumBubbleWidth, scale) == Widths(m, y, maximumBubbleWidth, scale);
  }

  /** The largest of some numbers. */
  predicate IsLargest(r: real, a: real, b: real, c: real)
  {
    r >= a && r >= b && r >= c && (r == a || r == b || r == c)
  }

  /** Each line of text fits the height of its block, and no block is higher than that or its least height. */
  lemma BlocksHoldTheirText(m: Message, x: Metrics, maximumBubbleWidth: real, scale: real)
    requires scale > 0.0 && Measures(m, maximumBubbleWidth, scale, x)
    ensures !m.grouped ==> IsLargest(x.senderHeight, 18.0 * scale, m.sender.height as real, m.sender.height as real)
    ensures m.hasText ==> IsLargest(x.textHeight, 24.0 * scale, m.text.height as real, m.text.height as real)
    ensures m.reply.Reply? ==>
              && x.replyMediaSize == (if m.reply.hasMedia then 38.0 * scale else 0.0)
              && IsLargest(x.replyHeight, 38.0 * scale, (m.reply.name.height + m.reply.text.height) as real + 8.0 * scale,
                           x.replyMediaSize + 4.0 * scale)
  {
  }

  /** A medium of known width is as wide as it is, within the limits; one of unknown width gets the widest place. */
  lemma MediaWidthsAreKept(m: Message, x: Metrics, maximumBubbleWidth: real, scale: real, i: nat)
    requires scale > 0.0 && maximumBubbleWidth >= 100.0 * scale && Measures(m, maximumBubbleWidth, scale, x) && i < |m.media|
    ensures
      var given := m.media[i].width as real;
      var widest := Max(80.0 * scale, Max(1.0, maximumBubbleWidth - 32.0 * scale) * 2.0 / 3.0);
      x.mediaWidths[i] == if given == 0.0 || given > widest then widest
                          else if given < 80.0 * scale then 80.0 * scale else given
  {
    var content := ContentWidth(maximumBubbleWidth, scale);
    assert content >= 1.0 && Min(content, content * 2.0 / 3.0) == content * 2.0 / 3.0;
  }

  /** The height that keeps the shape of a medium shown this wide. */
  function Shaped(media: Media, width: real): real
    requires media.width > 0
  {
    width * (media.height as real / media.width as real)
  }

  /** Its shape is kept unless its height is at a limit; one of unknown size has a height of its own. */
  lemma MediaKeepTheirShape(m: Message, x: Metrics, maximumBubbleWidth: real, scale: real, i: nat)
    requires scale > 0.0 && Measures(m, maximumBubbleWidth, scale, x) && i < |m.media|
    ensures m.media[i].width == 0 || m.media[i].height == 0 ==> x.mediaHeights[i] == 160.0 * scale
    ensures m.media[i].width > 0 && m.media[i].height > 0 ==>
              var shaped := Shaped(m.media[i], x.mediaWidths[i]);
              x.mediaHeights[i] == if shaped < 80.0 * scale then 80.0 * scale
                                   else if shaped > 220.0 * scale then 220.0 * scale else shaped
  {
    assert x.mediaHeights[i] == MediaHeight(m.media[i], x.mediaWidths[i], scale);
    hide Measures, MediaHeight, Shaped;
    ClampedHeight(m.media[i], x.mediaWidths[i], scale);
  }

  lemma ClampedHeight(media: Media, width: real, scale: real)
    requires scale > 0.0
    ensures media.width == 0 || media.height == 0 ==> MediaHeight(media, width, scale) == 160.0 * scale
    ensures media.width > 0 && media.height > 0 ==>
              var shaped := Shaped(media, width);
              MediaHeight(media, width, scale) == if shaped < 80.0 * scale then 80.0 * scale
                                                  else if shaped > 220.0 * scale then 220.0 * scale else shaped
  {
  }

  /** From top to bottom: sender, reply, text, media, voice, with these distances to what is above. */
  lemma OrderOfBlocks(m: Message, x: Metrics, scale: real)
    ensures Blocks(m, x, scale)
            == (if m.grouped then [] else [Block(0.0, x.senderHeight)])
               + (if m.reply.Reply? then [Block(5.0 * scale, x.replyHeight)] else [])
               + (if m.hasText then [Block(0.0, x.textHeight)] else [])
               + MediaBlocks(x.mediaHeights, scale)
               + (if m.voice then [Block(5.0 * scale, 44.0 * scale)] else [])
    ensures |MediaBlocks(x.mediaHeights, scale)| == |x.mediaHeights|
    ensures forall i :: 0 <= i < |x.mediaHeights| ==>
                          MediaBlocks(x.mediaHeights, scale)[i] == Block(5.0 * scale, x.mediaHeights[i])
  {
    forall i | 0 <= i < |x.mediaHeights|
      ensures MediaBlocks(x.mediaHeights, scale)[i] == Block(5.0 * scale, x.mediaHeights[i])
    {
      assert MediaBlocks(x.mediaHeights, scale)[i] == Block(Gap(scale), x.mediaHeights[i]);
    }
  }

  // ----- The whole quote -----

  function Between(m: Message, scale: real): real { (if m.grouped then 2.0 else 6.0) * scale }

  /** The height of the bubbles and the distances between them. */
  function Column(ms: seq<Message>, xs: seq<Metrics>, scale: real): real
    requires |ms| == |xs|
  {
    if ms == [] then 0.0
    else
      var n := |ms| - 1;
      Column(ms[..n], xs[..n], scale) + (if n > 0 then Between(ms[n], scale) else 0.0) + xs[n].height
  }

  function Heights(xs: seq<Metrics>): real
  {
    if xs == [] then 0.0 else Heights(xs[..|xs| - 1]) + xs[|xs| - 1].height
  }

  function Distances(ms: seq<Message>, scale: real): real
  {
    if |ms| <= 1 then 0.0 else Distances(ms[..|ms| - 1], scale) + Between(ms[|ms| - 1], scale)
  }

  lemma {:induction false} ColumnSplits(ms: seq<Message>, xs: seq<Metrics>, scale: real)
    requires |ms| == |xs|
    ensures Column(ms, xs, scale) == Heights(xs) + Distances(ms, scale)
  {
    if ms != [] {
      ColumnSplits(ms[..|ms| - 1], xs[..|ms| - 1], scale);
    }
  }

  /** The measuring loops of render: first all heights, then all distances. */
  method MeasureAll(ms: seq<Message>, maximumBubbleWidth: real, scale: real)
    returns (xs: seq<Metrics>, contentHeight: real)
    requires scale > 0.0 && maximumBubbleWidth >= MinimumWidth(scale)
    ensures |xs| == |ms|
    ensures forall i :: 0 <= i < |ms| ==> Measures(ms[i], maximumBubbleWidth, scale, xs[i])
    ensures contentHeight == ShadowPadTop(scale) + Column(ms, xs, scale) + ShadowPad(scale)
  {
    hide Measures;
    xs := [];
    contentHeight := ShadowPadTop(scale);
    for i := 0 to |ms|
      invariant |xs| == i && contentHeight == ShadowPadTop(scale) + Heights(xs)
      invariant forall j :: 0 <= j < i ==> Measures(ms[j], maximumBubbleWidth, scale, xs[j])
    {
      var x := MeasureMessage(ms[i], maximumBubbleWidth, scale);
      assert (xs + [x])[..i] == xs;
      xs := xs + [x];
      contentHeight := contentHeight + x.height;
    }
    ghost var heights := contentHeight;
    var i := 1;
    while i < |ms|
      invariant 1 <= i && (i <= |ms| || |ms| == 0)
      invariant contentHeight == heights + if i <= |ms| then Distances(ms[..i], scale) else 0.0
    {
      assert ms[..i + 1][..i] == ms[..i];
      contentHeight := contentHeight + Between(ms[i], scale);
      i := i + 1;
    }
    assert |ms| > 0 ==> ms[..i] == ms;
    ColumnSplits(ms, xs, scale);
    contentHeight := contentHeight + ShadowPad(scale);
  }

  /** The painting loop of render: the top of each bubble, and where the last one ends. */
  method PlaceAll(ms: seq<Message>, xs: seq<Metrics>, scale: real, start: real) returns (tops: seq<real>, end: real)
    requires |ms| == |xs|
    ensures |tops| == |ms|
    ensures forall i :: 0 <= i < |ms| ==>
                          tops[i] + xs[i].height == start + Column(ms[..i + 1], xs[..i + 1], scale)
    ensures end == start + Column(ms, xs, scale)
  {
    var y := start;
    tops, end := [], start;
    for i := 0 to |ms|
      invariant |tops| == i
      invariant forall j :: 0 <= j < i ==>
                              tops[j] + xs[j].height == start + Column(ms[..j + 1], xs[..j + 1], scale)
      invariant end == start + Column(ms[..i], xs[..i], scale)
      invariant y == end + if 0 < i < |ms| then Between(ms[i], scale) else 0.0
    {
      ColumnStep(ms, xs, scale, i);
      tops := tops + [y];
      y := y + xs[i].height;
      end := y;
      if i + 1 < |ms| {
        y := y + Between(ms[i + 1], scale);
      }
    }
    assert ms[..|ms|] == ms && xs[..|ms|] == xs;
  }

  lemma ColumnStep(ms: seq<Message>, xs: seq<Metrics>, scale: real, i: nat)
    requires |ms| == |xs| && i < |ms|
    ensures Column(ms[..i + 1], xs[..i + 1], scale)
            == Column(ms[..i], xs[..i], scale) + (if i > 0 then Between(ms[i], scale) else 0.0) + xs[i].height
  {
    assert ms[..i + 1][..i] == ms[..i] && xs[..i + 1][..i] == xs[..i];
  }

  /** So the first bubble starts the column, and each further one follows at its distance: nearer if it goes on the same sender. */
  lemma BubblesFollowEachOther(ms: seq<Message>, xs: seq<Metrics>, scale: real, start: real, tops: seq<real>, i: nat)
    requires |ms| == |xs| == |tops| && i < |ms|
    requires forall j :: 0 <= j < |ms| ==> tops[j] + xs[j].height == start + Column(ms[..j + 1], xs[..j + 1], scale)
    ensures tops[i] == if i == 0 then start
                       else tops[i - 1] + xs[i - 1].height + (if ms[i].grouped then 2.0 * scale else 6.0 * scale)
  {
    ColumnStep(ms, xs, scale, i);
  }

  datatype OutputType = Quote | Image | Stories

  /** Where painting starts on a canvas of some height. */
  function Start(kind: OutputType, height: real, contentHeight: real, scale: real): real
  {
    if kind == Quote then ShadowPadTop(scale) else Max(ShadowPadTop(scale), (height - contentHeight) / 2.0)
  }

  const MAXIMUM_DIMENSION: int := 4096
  const MAXIMUM_PIXELS: int := 64 * 1024 * 1024

  datatype Canvas = Refused | Canvas(height: int)

  /** The height of the canvas: asked for, or for a quote without one, that of the content. */
  function CanvasHeight(kind: OutputType, logicalHeight: nat, requested: nat, width: nat, contentHeight: real): Canvas
  {
    var automatic := kind == Quote && logicalHeight == 0;
    if automatic && contentHeight > MAXIMUM_DIMENSION as real then Refused
    else
      var wanted := if automatic then CeilInt(contentHeight) else requested;
      var height := if wanted == 0 then 1 else wanted;
      if height > MAXIMUM_DIMENSION || width * height > MAXIMUM_PIXELS then Refused
      else if contentHeight > height as real && kind == Quote && logicalHeight != 0 then Refused
      else Canvas(height)
  }

  function NotZero(n: int): int { if n == 0 then 1 else n }

  /**
   A canvas has a height within the limits: that of the content, rounded up, if it is automatic, else the one
   asked for, which for a quote must hold the content. It is refused only when that height breaks a limit.
   */
  lemma CanvasKeepsTheLimits(kind: OutputType, logicalHeight: nat, requested: nat, width: nat, contentHeight: real)
    ensures
      var canvas := CanvasHeight(kind, logicalHeight, requested, width, contentHeight);
      var automatic := kind == Quote && logicalHeight == 0;
      && (canvas.Canvas? ==>
            && canvas.height != 0 && canvas.height <= 4096 && width * canvas.height <= 64 * 1024 * 1024
            && (if automatic then canvas.height == 1 || contentHeight <= canvas.height as real < contentHeight + 1.0
                else canvas.height == if requested == 0 then 1 else requested)
            && (kind == Quote ==> contentHeight <= canvas.height as real))
      && (canvas == Refused ==>
            if automatic then contentHeight > 4096.0 || width * NotZero(CeilInt(contentHeight)) > 64 * 1024 * 1024
            else
              || NotZero(requested) > 4096 || width * NotZero(requested) > 64 * 1024 * 1024
              || (kind == Quote && contentHeight > NotZero(requested) as real))
  {
  }

  /**
   In a quote the last bubble ends exactly at the measured content height less the shadow, and on every
   canvas that a quote gets, of automatic or given height, it lies inside with its shadow.
   */
  lemma QuoteFillsItsCanvas(ms: seq<Message>, xs: seq<Metrics>, scale: real, logicalHeight: nat, requested: nat, width: nat)
    requires |ms| == |xs|
    ensures
      var contentHeight := ShadowPadTop(scale) + Column(ms, xs, scale) + ShadowPad(scale);
      var canvas := CanvasHeight(Quote, logicalHeight, requested, width, contentHeight);
      canvas.Canvas? ==>
        var end := Start(Quote, canvas.height as real, contentHeight, scale) + Column(ms, xs, scale);
        && end == contentHeight - ShadowPad(scale)
        && end + ShadowPad(scale) <= canvas.height as real
  {
  }

  /**
   On an image or story canvas, whose height is given and not checked against the content, the last
   bubble ends inside exactly when the content is at most one shadow higher than the canvas.
   */
  lemma FixedCanvasFitsIff(kind: OutputType, ms: seq<Message>, xs: seq<Metrics>, scale: real, height: real)
    requires scale > 0.0 && |ms| == |xs| && kind != Quote
    ensures
      var contentHeight := ShadowPadTop(scale) + Column(ms, xs, scale) + ShadowPad(scale);
      Start(kind, height, contentHeight, scale) + Column(ms, xs, scale) <= height
      <==> contentHeight <= height + ShadowPad(scale)
  {
  }
}
