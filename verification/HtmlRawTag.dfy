/**
 * The one tag that is not Telegram's. The table of inline styles is an object
 * literal, so the look-up for an element named `constructor` finds the function
 * every object inherits, and its source text is written as a tag. This module
 * says exactly when that happens.
 */
module HtmlRawTag {
  import opened HtmlTokens
  import opened HtmlNormalize
  import opened HtmlLinks
  import opened HtmlDom
  import opened HtmlInline
  import opened HtmlBlocks
  import opened HtmlBlockLaws
  import opened HtmlRender
  import opened HtmlRenderLaws
  import opened HtmlInk
  import opened HtmlMarks
  import opened HtmlRuns
  import opened HtmlShown
  import opened HtmlClassicInk
  import Layout = TableLayout

  // ---- Trees that write the tag ---------------------------------------------------------------

  predicate IsConstructor(n: TagName) {
    n.Other? && n.name == "constructor"
  }

  // Code without a link, and a link around code, keep only the text of their content.
  predicate KeepsMarkup(node: Node, linked: bool, code: bool, readers: Readers)
    requires node.Element?
  {
    (node.name.Code? ==> linked) && (IsAnchor(node, readers) ==> linked || !code)
  }

  /**
   * Some element named `constructor` below has text and no code in it, and no
   * element around it reduces its content to text.
   */
  predicate WritesNative(nodes: seq<Node>, linkify: bool, readers: Readers) {
    nodes != [] && (NodeWritesNative(nodes[0], linkify, readers) || WritesNative(nodes[1..], linkify, readers))
  }

  predicate NodeWritesNative(node: Node, linkify: bool, readers: Readers) {
    && node.Element? && !IsDropped(node.name) && !node.name.Br? && !node.name.Table?
    && if IsTransparent(node.name) then WritesNative(node.children, linkify, readers)
       else
         var below := LinkifiesChildren(node.name, linkify);
         var code := HoldsCode(node.children, below, readers);
         && HasInlineText(node.children)
         && ((IsConstructor(node.name) && !code)
             || (KeepsMarkup(node, HoldsLink(node.children, below, readers), code, readers)
                 && WritesNative(node.children, below, readers)))
  }

  // Some run of inline content that shows anything writes the tag.
  predicate RunsWriteNative(runs: seq<Run>, readers: Readers) {
    runs != [] && (RunWritesNative(runs[0], readers) || RunsWriteNative(runs[1..], readers))
  }

  predicate RunWritesNative(run: Run, readers: Readers) {
    run.Inlined? && InlineInk(run.nodes, readers, true) != [] && WritesNative(run.nodes, true, readers)
  }

  predicate TreeWritesNative(nodes: seq<Node>, readers: Readers) {
    RunsWriteNative(TreeRuns(nodes, [], readers), readers)
  }

  // ---- Inline content ------------------------------------------------------------------------

  predicate HasNative(c: Inline) {
    !ClosedTags(c.rich)
  }

  predicate SomeNative(parts: seq<Inline>) {
    parts != [] && (HasNative(parts[0]) || SomeNative(parts[1..]))
  }

  lemma {:induction false} JoinedNative(parts: seq<Inline>)
    ensures SomeNative(parts) <==> !ClosedTags(JoinRich(parts))
  {
    if parts != [] {
      JoinedNative(parts[1..]);
      ClosedConcat(parts[0].rich, JoinRich(parts[1..]));
    }
  }

  lemma {:induction false} SomeNativeConcat(a: seq<Inline>, b: seq<Inline>)
    ensures SomeNative(a + b) <==> SomeNative(a) || SomeNative(b)
  {
    hide HasNative;
    if a == [] {
      assert a + b == b;
    } else {
      assert (a + b)[0] == a[0] && (a + b)[1..] == a[1..] + b;
      SomeNativeConcat(a[1..], b);
    }
  }

  lemma LinkedIsClosed(text: string, readers: Readers)
    ensures !HasNative(LinkedText(text, readers))
  {
    MatchesInOrder(text, 0);
    LinkingKeepsText(text, Matches(text, 0), 0, readers.synthesizedHref);
    TextIsClosed(TextTokens(text));
  }

  // Linking runs of plain parts writes the tag no more and no less.
  lemma {:induction false} LinkifiedNative(parts: seq<Inline>, run: seq<Inline>, readers: Readers)
    requires AllSound(parts)
    ensures SomeNative(LinkifyRuns(parts, run, readers)) <==> SomeNative(parts)
    decreases |parts|
  {
    hide SoundMarkup, HasNative, LinkedText;
    LinkedIsClosed(JoinText(run), readers);
    var flushed := if run == [] then [] else [LinkedText(JoinText(run), readers)];
    assert !SomeNative(flushed);
    if parts != [] {
      assert Sound(parts[0]);
      if parts[0].plain {
        PlainIsClosed(parts[0]);
      }
      LinkifiedNative(parts[1..], if parts[0].plain then run + [parts[0]] else [], readers);
      if !parts[0].plain {
        var rest := LinkifyRuns(parts[1..], [], readers);
        SomeNativeConcat(flushed + [parts[0]], rest);
        SomeNativeConcat(flushed, [parts[0]]);
        assert [parts[0]][1..] == [];
      }
    }
  }

  lemma PlainIsClosed(c: Inline)
    requires Sound(c) && c.plain
    ensures !HasNative(c)
  {
    TextIsClosed(c.rich);
  }

  lemma {:induction false} ParseInlineNative(
    nodes: seq<Node>, ctx: Context, depth: nat, trim: bool, linkify: bool, readers: Readers)
    requires !ctx.bounded
    ensures var c := ParseInline(nodes, ctx, depth, trim, linkify, readers).0;
            HasNative(c) <==> c.text != [] && WritesNative(nodes, linkify, readers)
    decreases nodes, 1
  {
    hide Sound, ExpandNodes, LinkifyRuns, NormalizeText, NormalizeClassic, NormalizeRich, WritesNative, Alike;
    var parts := ExpandNodes(nodes, ctx, depth, linkify, readers).0;
    var joined := if linkify then LinkifyRuns(parts, [], readers) else parts;
    ExpandNodesNative(nodes, ctx, depth, linkify, readers);
    ExpandNodesSound(nodes, ctx, depth, linkify, readers);
    LinkifiedNative(parts, [], readers);
    JoinedNative(joined);
    NormalizeRichAlike(JoinRich(joined), trim);
    AlikeClosed(JoinRich(joined), NormalizeRich(JoinRich(joined), trim));
    TextIsClosed([]);
  }

  lemma {:induction false} ExpandNodesNative(
    nodes: seq<Node>, ctx: Context, depth: nat, linkify: bool, readers: Readers)
    requires !ctx.bounded
    ensures SomeNative(ExpandNodes(nodes, ctx, depth, linkify, readers).0) <==> WritesNative(nodes, linkify, readers)
    decreases nodes, 0
  {
    hide HasNative, NodeWritesNative;
    if nodes != [] {
      ExpandInlineNodeNative(nodes[0], ctx, depth, linkify, readers);
      ExpandNodesNative(nodes[1..], ctx, depth, linkify, readers);
      SomeNativeConcat(ExpandInlineNode(nodes[0], ctx, depth, linkify, readers).0,
                       ExpandNodes(nodes[1..], ctx, depth, linkify, readers).0);
    }
  }

  lemma {:induction false} ExpandInlineNodeNative(node: Node, ctx: Context, depth: nat, linkify: bool, readers: Readers)
    requires !ctx.bounded
    ensures SomeNative(ExpandInlineNode(node, ctx, depth, linkify, readers).0)
            <==> NodeWritesNative(node, linkify, readers)
    decreases node, 2
  {
    hide HasNative, ParseInlineNode, HoldsCode, HoldsLink, KeepsMarkup;
    if node.Element? && IsTransparent(node.name) {
      ExpandNodesNative(node.children, ctx, depth + 1, linkify, readers);
    } else {
      ParseInlineNodeNative(node, ctx, depth, linkify, readers);
      assert [ParseInlineNode(node, ctx, depth, linkify, readers).0][1..] == [];
    }
  }

  lemma {:induction false} ParseInlineNodeNative(node: Node, ctx: Context, depth: nat, linkify: bool, readers: Readers)
    requires !ctx.bounded && !(node.Element? && IsTransparent(node.name))
    ensures HasNative(ParseInlineNode(node, ctx, depth, linkify, readers).0)
            <==> NodeWritesNative(node, linkify, readers)
    decreases node, 1
  {
    hide HasNative, ParseElement;
    if node.Element? {
      ParseElementNative(node, ctx, depth, linkify, readers);
    } else {
      TextNotNative(if node.Text? then CleanText(node.data) else "");
    }
  }

  lemma TextNotNative(text: string)
    ensures !HasNative(PlainText(text)) && !HasNative(PlainText(text).(plain := false))
  {
    TextIsClosed(TextTokens(text));
  }

  lemma {:induction false} ParseElementNative(node: Node, ctx: Context, depth: nat, linkify: bool, readers: Readers)
    requires !ctx.bounded && node.Element? && !IsTransparent(node.name)
    ensures HasNative(ParseElement(node, ctx, depth, linkify, readers).0) <==> NodeWritesNative(node, linkify, readers)
    decreases node, 0
  {
    hide RenderElement, ParseInline, CollectText, HasNative, KeepsMarkup, HasInlineText, HoldsCode, HoldsLink;
    var name := node.name;
    TextNotNative("");
    if name.Br? {
      BreakNotNative();
    } else if name.Table? {
      TextNotNative(CollectText([node], ctx, depth + 1, false).0);
    } else if !IsDropped(name) {
      var childLinkify := LinkifiesChildren(name, linkify);
      ParseInlineNative(node.children, ctx, depth + 1, false, childLinkify, readers);
      ParseInlineInk(node.children, ctx, depth + 1, false, childLinkify, readers);
      MarksOfInline(node.children, ctx, depth + 1, false, childLinkify, readers);
      ElementNative(node, ParseInline(node.children, ctx, depth + 1, false, childLinkify, readers).0, readers);
    }
  }

  lemma BreakNotNative()
    ensures !HasNative(Inline("\n", TextTokens("\n"), [Token.Br], false, 0, false, false, false))
  {
  }

  // An element writes the tag for its own name, or hands on what its content writes.
  lemma ElementNative(node: Node, child: Inline, readers: Readers)
    requires node.Element?
    ensures HasNative(RenderElement(node, child, readers)) <==>
            || (IsConstructor(node.name) && !child.containsCode)
            || (KeepsMarkup(node, child.containsAnchor, child.containsCode, readers) && HasNative(child))
  {
    hide Wrap, TextTokens, ListItemPrefix, ClosedTags;
    TextIsClosed(TextTokens(child.text));
    match RoleOf(node.name)
    case ListItem => FramedClosed([Token.Br] + TextTokens(ListItemPrefix(node, readers)), child.rich, [Token.Br]);
    case Definition | Block => FramedClosed([Token.Br] + TextTokens(""), child.rich, [Token.Br]);
    case Link =>
      var href := if node.attrs.href.Some? then readers.safeHref(node.attrs.href.value) else None;
      if href.Some? && !child.containsAnchor {
        ClosedWrap(HtmlTokens.A, [Valued(Href, href.value)],
                   if child.containsCode then TextTokens(child.text) else child.rich);
      }
    case Format(kind) => ClosedWrap(kind, [], if kind.Code? then TextTokens(child.text) else child.rich);
    case NoRole =>
  }

  // ---- Blocks ----------------------------------------------------------------------------------

  predicate PiecesNative(pieces: seq<HtmlShown.Piece>) {
    pieces != [] && ((pieces[0].Content? && HasNative(pieces[0].content)) || PiecesNative(pieces[1..]))
  }

  lemma {:induction false} PiecesNativeConcat(a: seq<HtmlShown.Piece>, b: seq<HtmlShown.Piece>)
    ensures PiecesNative(a + b) <==> PiecesNative(a) || PiecesNative(b)
  {
    hide HasNative;
    if a == [] {
      assert a + b == b;
    } else {
      assert (a + b)[0] == a[0] && (a + b)[1..] == a[1..] + b;
      PiecesNativeConcat(a[1..], b);
    }
  }

  lemma {:induction false} RunsNative(runs: seq<Run>, readers: Readers)
    ensures PiecesNative(RunsPieces(runs, readers)) <==> RunsWriteNative(runs, readers)
  {
    hide RunPieces, RunWritesNative, HasNative;
    if runs != [] {
      RunNative(runs[0], readers);
      RunsNative(runs[1..], readers);
      PiecesNativeConcat(RunPieces(runs[0], readers), RunsPieces(runs[1..], readers));
    }
  }

  lemma RunNative(run: Run, readers: Readers)
    ensures PiecesNative(RunPieces(run, readers)) <==> RunWritesNative(run, readers)
  {
    hide HasNative, WritesNative, InlineInk, ParseInline;
    if run.Inlined? {
      var c := InlineOf(run.nodes, readers);
      ParseInlineInk(run.nodes, FREE, 0, true, true, readers);
      ParseInlineNative(run.nodes, FREE, 0, true, true, readers);
      FilledOne(c);
      assert [Content(c)][1..] == [];
    } else if run.Verbatim? {
      assert [Bare(PreText(run.nodes))][1..] == [];
    } else {
      assert [Divider][1..] == [];
    }
  }

  lemma {:induction false} FilledNative(items: seq<Inline>)
    requires AllSound(items)
    ensures PiecesNative(Filled(items)) <==> SomeNative(items)
  {
    hide SoundMarkup, HasNative;
    if items != [] {
      assert Sound(items[0]);
      FilledNative(items[1..]);
      if items[0].text == [] {
        EmptyNotNative(items[0]);
        assert [] + Filled(items[1..]) == Filled(items[1..]);
      } else {
        PiecesNativeConcat([Content(items[0])], Filled(items[1..]));
        assert [Content(items[0])][1..] == [];
      }
    }
  }

  lemma EmptyNotNative(c: Inline)
    requires c.rich == []
    ensures !HasNative(c)
  {
  }

  // ---- The rich form ----------------------------------------------------------------------------

  lemma {:induction false} RichItemsNative(items: seq<Inline>)
    ensures SomeNative(items) <==> !ClosedTags(RichItems(items))
  {
    hide Wrap;
    if items != [] {
      RichItemsNative(items[1..]);
      ClosedWrap(Kind.Li, [], items[0].rich);
      ClosedConcat(Wrap(Kind.Li, [], items[0].rich), RichItems(items[1..]));
    }
  }

  lemma {:induction false} RichCellsNative(row: seq<Cell>)
    ensures SomeNative(CellContents(row)) <==> !ClosedTags(RichCells(row))
  {
    hide Wrap;
    if row != [] {
      var kind := if row[0].isHeader then Kind.Th else Kind.Td;
      RichCellsNative(row[1..]);
      assert CellContents(row)[1..] == CellContents(row[1..]);
      ClosedWrap(kind, CellAttrs(row[0]), row[0].content.rich);
      ClosedConcat(Wrap(kind, CellAttrs(row[0]), row[0].content.rich), RichCells(row[1..]));
    }
  }

  lemma {:induction false} RichRowsNative(rows: seq<seq<Cell>>)
    ensures SomeNative(TableContents(rows)) <==> !ClosedTags(RichRows(rows))
  {
    hide Wrap;
    if rows != [] {
      RichCellsNative(rows[0]);
      RichRowsNative(rows[1..]);
      SomeNativeConcat(CellContents(rows[0]), TableContents(rows[1..]));
      ClosedWrap(Kind.Tr, [], RichCells(rows[0]));
      ClosedConcat(Wrap(Kind.Tr, [], RichCells(rows[0])), RichRows(rows[1..]));
    }
  }

  lemma RichTableNative(table: TableModel)
    requires table.caption.Some? ==> Sound(table.caption.value)
    ensures SomeNative(Contents(TableBlock(table))) <==> !ClosedTags(RichBlock(TableBlock(table)))
  {
    hide Wrap, SoundMarkup, RichRows, TableContents;
    var caption := if table.caption.Some? then [table.caption.value] else [];
    SomeNativeConcat(caption, TableContents(table.rows));
    RichRowsNative(table.rows);
    TextIsClosed([]);
    if table.caption.Some? {
      ClosedWrap(Kind.Caption, [], table.caption.value.rich);
      assert caption[1..] == [];
    }
    ClosedConcat(RichCaption(table.caption), RichRows(table.rows));
    ClosedWrap(Kind.Table, [Bordered, Compact], RichCaption(table.caption) + RichRows(table.rows));
  }

  lemma RichBlockNative(b: Block)
    requires BlockSound(b)
    ensures SomeNative(Contents(b)) <==> !ClosedTags(RichBlock(b))
  {
    hide Wrap, SoundMarkup;
    match b
    case PreBlock(text) =>
      TextIsClosed(TextTokens(text));
      ClosedWrap(Kind.Pre, [], TextTokens(text));
    case ListBlock(ordered, start, items) =>
      RichItemsNative(items);
      ClosedWrap(if ordered then Kind.Ol else Kind.Ul,
                 if ordered && start != 1 then [Valued(AttrName.Start, Decimal(start))] else [],
                 RichItems(items));
    case TableBlock(table) => RichTableNative(table);
    case DividerBlock =>
    case ParagraphBlock(content) => OneContentNative(P, content);
    case HeadingBlock(level, content) => OneContentNative(H(level), content);
    case QuoteBlock(content) => OneContentNative(Kind.Blockquote, content);
    case FooterBlock(content) => OneContentNative(Kind.Footer, content);
  }

  lemma OneContentNative(k: Kind, c: Inline)
    requires !k.Native?
    ensures SomeNative([c]) <==> !ClosedTags(Wrap(k, [], c.rich))
  {
    assert [c][1..] == [];
    ClosedWrap(k, [], c.rich);
  }

  lemma BlockNative(b: Block)
    requires BlockSound(b)
    ensures PiecesNative(BlockPieces(b)) <==> SomeNative(Contents(b))
  {
    hide SoundMarkup, HasNative;
    match b
    case PreBlock(text) => assert [Bare(text)][1..] == [];
    case DividerBlock => assert [Divider][1..] == [];
    case TableBlock(table) =>
      TableContentsSound(table);
      FilledNative(Contents(b));
    case _ => FilledNative(Contents(b));
  }

  lemma TableContentsSound(table: TableModel)
    requires BlockSound(TableBlock(table))
    ensures AllSound(Contents(TableBlock(table)))
  {
    RowContentsSound(table.rows);
  }

  lemma {:induction false} RowContentsSound(rows: seq<seq<Cell>>)
    requires RowsSound(rows)
    ensures AllSound(TableContents(rows))
  {
    hide Sound;
    if rows != [] {
      assert CellsSound(rows[0]);
      CellContentsSound(rows[0]);
      RowContentsSound(rows[1..]);
    }
  }

  lemma {:induction false} CellContentsSound(row: seq<Cell>)
    requires CellsSound(row)
    ensures AllSound(CellContents(row))
  {
    hide Sound;
    if row != [] {
      CellContentsSound(row[1..]);
      assert row[0] in row;
    }
  }

  /** For all sound blocks: the rich form stays in the closed set exactly if no shown content writes the tag. */
  lemma {:induction false} RichNative(blocks: seq<Block>)
    requires BlocksSound(blocks)
    ensures ClosedTags(RenderRich(blocks)) <==> !PiecesNative(BlocksPieces(blocks))
  {
    hide BlockSound, RichBlock, BlockPieces, HasNative;
    if blocks == [] {
      TextIsClosed([]);
    } else {
      assert BlockSound(blocks[0]);
      BlockNative(blocks[0]);
      RichBlockNative(blocks[0]);
      RichNative(blocks[1..]);
      PiecesNativeConcat(BlockPieces(blocks[0]), BlocksPieces(blocks[1..]));
      ClosedConcat(RichBlock(blocks[0]), RenderRich(blocks[1..]));
    }
  }
}
