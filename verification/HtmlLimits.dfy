/**
 * What the limits of the rich form mean for what is sent: its text, its
 * elements and its depth are bounded by what the statistics count.
 */
module HtmlLimits {
  import opened HtmlTokens
  import opened HtmlNormalize
  import opened HtmlLinks
  import opened HtmlDom
  import opened HtmlInline
  import opened HtmlBlocks
  import opened HtmlBlockLaws
  import opened HtmlRender
  import opened HtmlRenderLaws

  // The elements that count: all but inline elements, cells and captions.
  predicate OpensElement(t: Token) {
    t.Open? && match t.kind
      case P | H(_) | Pre | Ol | Ul | Li | Blockquote | Footer | Table | Tr => true
      case _ => false
  }

  function Elements(ts: seq<Token>): nat {
    if ts == [] then 0 else (if OpensElement(ts[0]) then 1 else 0) + Elements(ts[1..])
  }

  lemma {:induction false} ElementsConcat(a: seq<Token>, b: seq<Token>)
    ensures Elements(a + b) == Elements(a) + Elements(b)
  {
    hide OpensElement;
    if a == [] {
      assert a + b == b;
    } else {
      assert (a + b)[0] == a[0] && (a + b)[1..] == a[1..] + b;
      ElementsConcat(a[1..], b);
    }
  }

  lemma OneElement(t: Token)
    ensures Elements([t]) == if OpensElement(t) then 1 else 0
  {
    assert [t][1..] == [];
  }

  lemma ElementsWrapped(k: Kind, attrs: seq<Attr>, ts: seq<Token>)
    ensures Elements(Wrap(k, attrs, ts)) == (if OpensElement(Open(k, attrs)) then 1 else 0) + Elements(ts)
  {
    hide OpensElement;
    ElementsConcat([Open(k, attrs)], ts);
    ElementsConcat([Open(k, attrs)] + ts, [Close(k)]);
    OneElement(Open(k, attrs));
    OneElement(Close(k));
    assert !OpensElement(Close(k)) by { CloseOpensNothing(k); }
  }

  lemma CloseOpensNothing(k: Kind)
    ensures !OpensElement(Close(k))
  {
  }

  lemma {:induction false} NoElements(ts: seq<Token>)
    requires forall i | 0 <= i < |ts| :: !OpensElement(ts[i])
    ensures Elements(ts) == 0
  {
    if ts != [] {
      NoElements(ts[1..]);
    }
  }

  lemma ContentHasNoElements(c: Inline)
    requires Sound(c)
    ensures Elements(c.rich) == 0
  {
    forall i | 0 <= i < |c.rich| ensures !OpensElement(c.rich[i]) {
      assert c.rich[i].Open? ==> Opens(c.rich, c.rich[i].kind);
    }
    NoElements(c.rich);
  }

  lemma {:induction false} ItemElements(items: seq<Inline>)
    requires AllSound(items)
    ensures Elements(RichItems(items)) == |items|
  {
    hide SoundMarkup, Wrap;
    if items != [] {
      assert Sound(items[0]);
      ItemElements(items[1..]);
      ContentHasNoElements(items[0]);
      ElementsWrapped(Kind.Li, [], items[0].rich);
      ElementsConcat(Wrap(Kind.Li, [], items[0].rich), RichItems(items[1..]));
    }
  }

  lemma {:induction false} CellElements(row: seq<Cell>)
    requires CellsSound(row)
    ensures Elements(RichCells(row)) == 0
  {
    hide SoundMarkup, Wrap, CellAttrs;
    if row != [] {
      var kind := if row[0].isHeader then Kind.Th else Kind.Td;
      assert row[0] in row;
      CellElements(row[1..]);
      ContentHasNoElements(row[0].content);
      ElementsWrapped(kind, CellAttrs(row[0]), row[0].content.rich);
      ElementsConcat(Wrap(kind, CellAttrs(row[0]), row[0].content.rich), RichCells(row[1..]));
    }
  }

  lemma {:induction false} RowElements(rows: seq<seq<Cell>>)
    requires RowsSound(rows)
    ensures Elements(RichRows(rows)) == |rows|
  {
    hide Sound, Wrap, RichCells;
    if rows != [] {
      assert CellsSound(rows[0]);
      CellElements(rows[0]);
      RowElements(rows[1..]);
      ElementsWrapped(Kind.Tr, [], RichCells(rows[0]));
      ElementsConcat(Wrap(Kind.Tr, [], RichCells(rows[0])), RichRows(rows[1..]));
    }
  }

  lemma CaptionElements(caption: Option<Inline>)
    requires caption.Some? ==> Sound(caption.value)
    ensures Elements(RichCaption(caption)) == 0
  {
    hide SoundMarkup, Wrap;
    if caption.Some? {
      ContentHasNoElements(caption.value);
      ElementsWrapped(Kind.Caption, [], caption.value.rich);
    }
  }

  lemma BlockElements(b: Block)
    requires BlockSound(b)
    ensures Elements(RichBlock(b)) + (if b.DividerBlock? then 1 else 0) == BlockCount(b)
  {
    hide SoundMarkup, Wrap, RichItems, RichRows, RichCaption, TextTokens, RowsSound;
    match b
    case ParagraphBlock(c) =>
      ContentHasNoElements(c);
      ElementsWrapped(Kind.P, [], c.rich);
    case HeadingBlock(level, c) =>
      ContentHasNoElements(c);
      ElementsWrapped(Kind.H(level), [], c.rich);
    case QuoteBlock(c) =>
      ContentHasNoElements(c);
      ElementsWrapped(Kind.Blockquote, [], c.rich);
    case FooterBlock(c) =>
      ContentHasNoElements(c);
      ElementsWrapped(Kind.Footer, [], c.rich);
    case PreBlock(text) =>
      NoElements(TextTokens(text));
      ElementsWrapped(Kind.Pre, [], TextTokens(text));
    case DividerBlock => OneElement(Token.Hr);
    case ListBlock(ordered, start, items) =>
      ItemElements(items);
      ElementsWrapped(if ordered then Kind.Ol else Kind.Ul,
                      if ordered && start != 1 then [Valued(AttrName.Start, Decimal(start))] else [], RichItems(items));
    case TableBlock(table) =>
      CaptionElements(table.caption);
      RowElements(table.rows);
      ElementsConcat(RichCaption(table.caption), RichRows(table.rows));
      ElementsWrapped(Kind.Table, [Bordered, Compact], RichCaption(table.caption) + RichRows(table.rows));
  }

  function Dividers(blocks: seq<Block>): nat {
    if blocks == [] then 0 else (if blocks[0].DividerBlock? then 1 else 0) + Dividers(blocks[1..])
  }

  // The statistics of one block in front of others.
  lemma {:induction false} StatsOfFirst(blocks: seq<Block>)
    requires blocks != []
    ensures var all, rest := StatsOf(blocks), StatsOf(blocks[1..]);
            && all.blocks == BlockCount(blocks[0]) + rest.blocks
            && all.textCharacters == BlockText(blocks[0]) + rest.textCharacters
            && all.maxTableColumns >= BlockColumns(blocks[0]) && all.maxTableColumns >= rest.maxTableColumns
    decreases |blocks|
  {
    hide BlockCount, BlockText, BlockColumns, BlockDepth;
    var n := |blocks| - 1;
    if n > 0 {
      var init := blocks[..n];
      StatsOfFirst(init);
      assert init[1..] == blocks[1..][..n - 1] && blocks[1..][n - 1] == blocks[n];
    } else {
      assert blocks[1..] == [] && blocks[..0] == [];
    }
  }

  /** For all sound blocks: the statistics count exactly the elements and rules of the rich form. */
  lemma {:induction false} CountedElements(blocks: seq<Block>)
    requires BlocksSound(blocks)
    ensures Elements(RenderRich(blocks)) + Dividers(blocks) == StatsOf(blocks).blocks
  {
    hide BlockSound, RichBlock, BlockCount, StatsOf;
    if blocks == [] {
      assert StatsOf([]).blocks == 0 by { NoStats(); }
    } else {
      assert BlockSound(blocks[0]);
      BlockElements(blocks[0]);
      CountedElements(blocks[1..]);
      StatsOfFirst(blocks);
      ElementsConcat(RichBlock(blocks[0]), RenderRich(blocks[1..]));
    }
  }

  lemma NoStats()
    ensures StatsOf([]) == Stats(0, 0, 0, 0)
  {
  }

  // All text of the blocks, one content after the other.
  function BlocksText(blocks: seq<Block>): string {
    if blocks == [] then []
    else (if blocks[0].PreBlock? then blocks[0].text else JoinText(Contents(blocks[0]))) + BlocksText(blocks[1..])
  }

  lemma {:induction false} JoinedLength(items: seq<Inline>)
    ensures |JoinText(items)| == TextLength(items) && NonSpace(JoinText(items)) == Ink(items)
  {
    if items != [] {
      JoinedLength(items[1..]);
      NonSpaceConcat(items[0].text, JoinText(items[1..]));
    }
  }

  lemma {:induction false} InkIsShorter(text: string)
    ensures |NonSpace(text)| <= |text|
  {
    if text != [] {
      InkIsShorter(text[1..]);
    }
  }

  /** For all blocks: the statistics count exactly the characters of their text, and every table's columns. */
  lemma {:induction false} CountedText(blocks: seq<Block>)
    ensures StatsOf(blocks).textCharacters == |BlocksText(blocks)| && BlocksInk(blocks) == NonSpace(BlocksText(blocks))
    ensures forall b | b in blocks && b.TableBlock? :: b.table.logicalColumns <= StatsOf(blocks).maxTableColumns
  {
    hide StatsOf, Contents, TextLength, JoinText;
    if blocks == [] {
      assert StatsOf([]).textCharacters == 0 by { NoStats(); }
    } else {
      CountedText(blocks[1..]);
      StatsOfFirst(blocks);
      JoinedLength(Contents(blocks[0]));
      NonSpaceConcat(if blocks[0].PreBlock? then blocks[0].text else JoinText(Contents(blocks[0])),
                     BlocksText(blocks[1..]));
    }
  }

  /**
   * When a rich form is sent, and of what: of a whole document that has at most
   * 32768 characters of text, 500 elements, 20 table columns and 16 levels.
   */
  lemma RichExactlyWhen(children: seq<Node>, sourceTruncated: bool, domTruncated: bool, readers: Readers)
    ensures var r := RenderDocument(children, sourceTruncated, domTruncated, readers);
            var ctx := ParseBlocks(children, FreshContext(sourceTruncated, domTruncated), 0, readers).1;
            && (r.rich.Some? <==>
                && !ctx.sourceTruncated && !ctx.domTruncated && !ctx.nodeLimitExceeded && !ctx.depthLimitExceeded
                && !ctx.modelTruncated
                && r.stats.textCharacters <= 32768 && r.stats.blocks <= 500 && r.stats.maxTableColumns <= 20
                && r.stats.outputDepth <= 16)
            && (r.rich.Some? <==> r.reason.None?)
            && (r.rich.Some? ==>
                  var whole := WholeDocument(children, readers);
                  && r.rich.value == RenderRich(whole)
                  && |Visible(r.rich.value)| <= 32768
                  && Elements(r.rich.value) + Dividers(whole) <= 500
                  && (forall b | b in whole && b.TableBlock? :: b.table.logicalColumns <= 20)
                  && Depth(r.rich.value) <= 16)
  {
    hide ParseBlocks, RenderClassic, RenderRich, StatsOf, HasLinks, BlockSound;
    UntruncatedIsWhole(children, sourceTruncated, domTruncated, readers);
    var ctx := ParseBlocks(children, FreshContext(sourceTruncated, domTruncated), 0, readers).1;
    var whole := WholeDocument(children, readers);
    if !ctx.Truncated() {
      if RichIneligibility(ctx, StatsOf(whole)).None? {
        WithinRichLimits(whole, ctx);
      }
      CountedElements(whole);
      CountedText(whole);
      InkIsShorter(BlocksText(whole));
    }
  }

  /** A parse starts within its limits, with no node visited and cut only as its input was. */
  lemma StartsUncut(sourceTruncated: bool, domTruncated: bool, depth: nat)
    ensures var ctx := FreshContext(sourceTruncated, domTruncated);
            && (ctx.Truncated() <==> sourceTruncated || domTruncated)
            && ctx.bounded && ctx.visitedNodes == 0 && (Enter(ctx, depth).0 <==> depth <= 32)
  {
  }

  /** A node is entered exactly within the limits: at most 32 levels deep, and as one of at most 20000 nodes. */
  lemma EnteredExactlyWhen(ctx: Context, depth: nat)
    requires ctx.bounded
    ensures var (entered, after) := Enter(ctx, depth);
            && (entered <==> depth <= 32 && !ctx.nodeLimitExceeded && ctx.visitedNodes < 20_000)
            && (after.depthLimitExceeded <==> ctx.depthLimitExceeded || depth > 32)
            && (after.nodeLimitExceeded <==>
                  ctx.nodeLimitExceeded || (depth <= 32 && ctx.visitedNodes >= 20_000))
            && after.modelTruncated == ctx.modelTruncated && after.sourceTruncated == ctx.sourceTruncated
            && after.domTruncated == ctx.domTruncated
  {
  }
}
