/**
 * Whatever limits cut a parse short, its blocks are made of the tree alone: no
 * character is shown that the tree does not hold, and none more often. Order is
 * no part of this, for the caption of a data table moves to its front, and a
 * limit can make a data table of a table that is none.
 */
module HtmlCutShort {
  import opened HtmlTokens
  import opened HtmlNormalize
  import opened HtmlLinks
  import opened HtmlDom
  import opened HtmlInline
  import opened HtmlBlocks
  import opened HtmlRender
  import opened HtmlRenderLaws
  import opened HtmlInk
  import opened HtmlRuns
  import opened HtmlShown
  import Layout = TableLayout

  // All visible characters of all text that is not dropped, with the markers of list items.
  function MarkedText(nodes: seq<Node>, readers: Readers): string {
    if nodes == [] then [] else MarkedNode(nodes[0], readers) + MarkedText(nodes[1..], readers)
  }

  function MarkedNode(node: Node, readers: Readers): string {
    if node.Text? then NonSpace(node.data)
    else if node.Element? && !IsDropped(node.name) then
      (if node.name.Li? then NonSpace(ListItemPrefix(node, readers)) else []) + MarkedText(node.children, readers)
    else []
  }

  /** Each character of `ink` is in `text`, at least as often. */
  ghost predicate DrawnFrom(ink: string, text: string) {
    multiset(ink) <= multiset(text)
  }

  lemma DrawnBoth(a: string, x: string, b: string, y: string)
    requires DrawnFrom(a, x) && DrawnFrom(b, y)
    ensures DrawnFrom(a + b, x + y)
  {
  }

  lemma DrawnInside(ink: string, before: string, text: string, after: string)
    requires DrawnFrom(ink, text)
    ensures DrawnFrom(ink, before + text) && DrawnFrom(ink, text + after)
  {
  }

  lemma DrawnFromSelf(ink: string, text: string)
    ensures DrawnFrom(ink, ink) && DrawnFrom([], text)
  {
  }

  lemma DrawnOn(a: string, b: string, c: string)
    requires DrawnFrom(a, b) && DrawnFrom(b, c)
    ensures DrawnFrom(a, c)
  {
  }

  lemma {:induction false} MarkedConcat(a: seq<Node>, b: seq<Node>, readers: Readers)
    ensures MarkedText(a + b, readers) == MarkedText(a, readers) + MarkedText(b, readers)
  {
    hide MarkedNode;
    if a == [] {
      assert a + b == b;
    } else {
      assert (a + b)[0] == a[0] && (a + b)[1..] == a[1..] + b;
      MarkedConcat(a[1..], b, readers);
      var own, x, y := MarkedNode(a[0], readers), MarkedText(a[1..], readers), MarkedText(b, readers);
      assert own + (x + y) == own + x + y;
    }
  }

  lemma OneMarked(node: Node, readers: Readers)
    ensures MarkedText([node], readers) == MarkedNode(node, readers)
  {
    assert [node][1..] == [];
  }

  lemma MarkedElement(node: Node, ink: string, readers: Readers)
    requires node.Element? && !IsDropped(node.name) && DrawnFrom(ink, MarkedText(node.children, readers))
    ensures DrawnFrom(ink, MarkedNode(node, readers))
    ensures node.name.Li? ==> DrawnFrom(NonSpace(ListItemPrefix(node, readers)) + ink, MarkedNode(node, readers))
  {
    hide NonSpace, ListItemPrefix, MarkedText;
    if node.name.Li? {
      var mark := NonSpace(ListItemPrefix(node, readers));
      DrawnInside(ink, mark, MarkedText(node.children, readers), []);
      DrawnFromSelf(mark, []);
      DrawnBoth(mark, mark, ink, MarkedText(node.children, readers));
    } else {
      DrawnInside(ink, [], MarkedText(node.children, readers), []);
    }
  }

  // ---- Text and inline content ------------------------------------------------------------------

  lemma {:induction false} CollectTextDrawn(
    nodes: seq<Node>, ctx: Context, depth: nat, preserve: bool, readers: Readers)
    ensures DrawnFrom(NonSpace(CollectText(nodes, ctx, depth, preserve).0), MarkedText(nodes, readers))
    decreases nodes, 1
  {
    hide CollectParts, DrawnFrom, MarkedText, NonSpace, NormalizeText;
    CollectPartsDrawn(nodes, ctx, depth, preserve, readers);
    var joined := CollectParts(nodes, ctx, depth, preserve).0;
    var unified := UnifyNewlines(TextTokens(joined));
    UnifyNewlinesAlike(TextTokens(joined));
    NonSpaceOfText(unified);
    VisibleOfText(joined);
    TrimmedText(TextOf(unified));
  }

  lemma {:induction false} CollectPartsDrawn(
    nodes: seq<Node>, ctx: Context, depth: nat, preserve: bool, readers: Readers)
    ensures DrawnFrom(NonSpace(CollectParts(nodes, ctx, depth, preserve).0), MarkedText(nodes, readers))
    decreases nodes, 0
  {
    hide OwnText, DrawnFrom, MarkedNode;
    DrawnFromSelf([], MarkedText(nodes, readers));
    if nodes != [] {
      var (entered, c1) := Enter(ctx, depth);
      var own, rest := MarkedNode(nodes[0], readers), MarkedText(nodes[1..], readers);
      if entered {
        var (text, c2) := OwnText(nodes[0], c1, depth, preserve);
        var later := CollectParts(nodes[1..], c2, depth, preserve).0;
        OwnTextDrawn(nodes[0], c1, depth, preserve, readers);
        CollectPartsDrawn(nodes[1..], c2, depth, preserve, readers);
        NonSpaceConcat(text, later);
        DrawnBoth(NonSpace(text), own, NonSpace(later), rest);
      } else if !c1.nodeLimitExceeded {
        CollectPartsDrawn(nodes[1..], c1, depth, preserve, readers);
        DrawnInside(NonSpace(CollectParts(nodes[1..], c1, depth, preserve).0), own, rest, []);
      }
    }
  }

  lemma {:induction false} OwnTextDrawn(node: Node, ctx: Context, depth: nat, preserve: bool, readers: Readers)
    ensures DrawnFrom(NonSpace(OwnText(node, ctx, depth, preserve).0), MarkedNode(node, readers))
    decreases node, 2
  {
    hide CollectText, DrawnFrom, MarkedText;
    DrawnFromSelf(MarkedNode(node, readers), MarkedNode(node, readers));
    LineOfItsOwn("");
    if node.Element? && !IsDropped(node.name) {
      var nested := CollectText(node.children, ctx, depth + 1, preserve).0;
      CollectTextDrawn(node.children, ctx, depth + 1, preserve, readers);
      LineOfItsOwn(nested);
      MarkedElement(node, NonSpace(nested), readers);
    }
  }

  lemma {:induction false} ParseInlineDrawn(
    nodes: seq<Node>, ctx: Context, depth: nat, trim: bool, linkify: bool, readers: Readers)
    ensures DrawnFrom(NonSpace(ParseInline(nodes, ctx, depth, trim, linkify, readers).0.text),
                      MarkedText(nodes, readers))
    decreases nodes, 1
  {
    hide ExpandNodes, LinkifyRuns, NormalizeText, NormalizeClassic, NormalizeRich, NonSpace, MarkedText, DrawnFrom;
    var parts := ExpandNodes(nodes, ctx, depth, linkify, readers).0;
    var joined := if linkify then LinkifyRuns(parts, [], readers) else parts;
    ExpandNodesDrawn(nodes, ctx, depth, linkify, readers);
    LinkedRunsText(parts, [], readers);
    assert JoinText([]) + JoinText(parts) == JoinText(parts);
    TrimmedText(JoinText(joined));
    NormalizedText(JoinText(joined));
    assert ParseInline(nodes, ctx, depth, trim, linkify, readers).0.text == NormalizeText(JoinText(joined), trim);
  }

  lemma {:induction false} ExpandNodesDrawn(nodes: seq<Node>, ctx: Context, depth: nat, linkify: bool, readers: Readers)
    ensures DrawnFrom(NonSpace(JoinText(ExpandNodes(nodes, ctx, depth, linkify, readers).0)),
                      MarkedText(nodes, readers))
    decreases nodes, 0
  {
    hide ExpandInlineNode, DrawnFrom, MarkedNode, NonSpace;
    if nodes == [] {
      DrawnFromSelf([], []);
      assert NonSpace(JoinText([])) == [] by { EmptyJoins(); }
    } else {
      var (first, c) := ExpandInlineNode(nodes[0], ctx, depth, linkify, readers);
      var rest := ExpandNodes(nodes[1..], c, depth, linkify, readers).0;
      ExpandInlineNodeDrawn(nodes[0], ctx, depth, linkify, readers);
      ExpandNodesDrawn(nodes[1..], c, depth, linkify, readers);
      JoinTextConcat(first, rest);
      NonSpaceConcat(JoinText(first), JoinText(rest));
      DrawnBoth(NonSpace(JoinText(first)), MarkedNode(nodes[0], readers),
                NonSpace(JoinText(rest)), MarkedText(nodes[1..], readers));
    }
  }

  lemma EmptyJoins()
    ensures NonSpace(JoinText([])) == []
  {
  }

  lemma {:induction false} ExpandInlineNodeDrawn(node: Node, ctx: Context, depth: nat, linkify: bool, readers: Readers)
    ensures DrawnFrom(NonSpace(JoinText(ExpandInlineNode(node, ctx, depth, linkify, readers).0)),
                      MarkedNode(node, readers))
    decreases node, 2
  {
    hide ParseInlineNode, DrawnFrom, NonSpace, MarkedText;
    EmptyJoins();
    DrawnFromSelf([], MarkedNode(node, readers));
    if node.Element? && IsTransparent(node.name) {
      var (entered, c) := Enter(ctx, depth);
      if entered {
        ExpandNodesDrawn(node.children, c, depth + 1, linkify, readers);
        MarkedElement(node, NonSpace(JoinText(ExpandNodes(node.children, c, depth + 1, linkify, readers).0)), readers);
      }
    } else {
      var part := ParseInlineNode(node, ctx, depth, linkify, readers).0;
      ParseInlineNodeDrawn(node, ctx, depth, linkify, readers);
      assert JoinText([part]) == part.text + JoinText([]) == part.text;
    }
  }

  lemma {:induction false} ParseInlineNodeDrawn(node: Node, ctx: Context, depth: nat, linkify: bool, readers: Readers)
    ensures DrawnFrom(NonSpace(ParseInlineNode(node, ctx, depth, linkify, readers).0.text), MarkedNode(node, readers))
    decreases node, 1
  {
    hide ParseElement, DrawnFrom, MarkedText, CleanText;
    var (entered, c) := Enter(ctx, depth);
    DrawnFromSelf(MarkedNode(node, readers), MarkedNode(node, readers));
    if entered {
      if node.Text? {
        CleanTextInk(node.data);
      } else if node.Element? {
        ParseElementDrawn(node, c, depth, linkify, readers);
      }
    }
  }

  lemma {:induction false} ParseElementDrawn(node: Node, ctx: Context, depth: nat, linkify: bool, readers: Readers)
    requires node.Element?
    ensures DrawnFrom(NonSpace(ParseElement(node, ctx, depth, linkify, readers).0.text), MarkedNode(node, readers))
    decreases node, 0
  {
    hide RenderElement, ParseInline, CollectText, DrawnFrom, MarkedText, MarkedNode, ListItemPrefix;
    var name := node.name;
    DrawnFromSelf([], MarkedNode(node, readers));
    LineOfItsOwn("");
    if name.Table? {
      CollectTextDrawn([node], ctx, depth + 1, false, readers);
      OneMarked(node, readers);
    } else if !IsDropped(name) && !name.Br? {
      var below := LinkifiesChildren(name, linkify);
      var child := ParseInline(node.children, ctx, depth + 1, false, below, readers).0;
      ParseInlineDrawn(node.children, ctx, depth + 1, false, below, readers);
      MarkedElement(node, NonSpace(child.text), readers);
      if child.text != [] {
        RenderedElementText(node, child, readers);
        assert [] + NonSpace(child.text) == NonSpace(child.text);
      }
    }
  }

  // ---- Tables -------------------------------------------------------------------------------------

  lemma {:induction false} ParseCellsDrawn(children: seq<Node>, ctx: Context, depth: nat, readers: Readers)
    ensures DrawnFrom(Ink(CellContents(ParseCells(children, ctx, depth, readers).0)), MarkedText(children, readers))
  {
    hide ParseInline, IsEntireCellStrong, DrawnFrom, MarkedNode, NonSpace;
    DrawnFromSelf([], MarkedText(children, readers));
    if children != [] {
      var own, rest := MarkedNode(children[0], readers), MarkedText(children[1..], readers);
      if IsCell(children[0]) {
        var (first, c) := ParseCell(children[0], ctx, depth, readers);
        var later := ParseCells(children[1..], c, depth, readers).0;
        ParseInlineDrawn(children[0].children, ctx, depth + 1, true, true, readers);
        MarkedElement(children[0], NonSpace(first.content.text), readers);
        ParseCellsDrawn(children[1..], c, depth, readers);
        CellInFront(first, later);
        DrawnBoth(NonSpace(first.content.text), own, Ink(CellContents(later)), rest);
      } else {
        ParseCellsDrawn(children[1..], ctx, depth, readers);
        DrawnInside(Ink(CellContents(ParseCells(children[1..], ctx, depth, readers).0)), own, rest, []);
      }
    }
  }

  lemma CellInFront(cell: Cell, row: seq<Cell>)
    ensures Ink(CellContents([cell] + row)) == NonSpace(cell.content.text) + Ink(CellContents(row))
  {
    assert ([cell] + row)[1..] == row;
    assert ([cell.content] + CellContents(row))[1..] == CellContents(row);
  }

  lemma {:induction false} ParseRowsDrawn(rows: seq<Node>, ctx: Context, depth: nat, readers: Readers)
    requires forall r | r in rows :: r.Element? && r.name.Tr?
    ensures DrawnFrom(Ink(TableContents(ParseRows(rows, ctx, depth, readers).0)), MarkedText(rows, readers))
  {
    hide ParseCells, DrawnFrom, MarkedNode, CellContents, Ink, HasText;
    if rows == [] {
      DrawnFromSelf([], []);
      assert Ink(TableContents([])) == [] by { NoInk(); }
    } else {
      var (first, c) := ParseCells(rows[0].children, ctx, depth, readers);
      var later := ParseRows(rows[1..], c, depth, readers).0;
      var own, rest := MarkedNode(rows[0], readers), MarkedText(rows[1..], readers);
      ParseCellsDrawn(rows[0].children, ctx, depth, readers);
      MarkedElement(rows[0], Ink(CellContents(first)), readers);
      ParseRowsDrawn(rows[1..], c, depth, readers);
      DrawnInside(Ink(TableContents(later)), own, rest, []);
      DrawnBoth(Ink(CellContents(first)), own, Ink(TableContents(later)), rest);
      InkConcat(CellContents(first), TableContents(later));
      assert ([first] + later)[1..] == later;
    }
  }

  lemma NoInk()
    ensures Ink(TableContents([])) == [] && Ink([]) == []
  {
  }

  lemma NoRowsInCaption(node: Node, groups: bool)
    requires node.Element? && node.name.Caption?
    ensures RowsHere(node, groups) == []
  {
  }

  // The rows of a table, and its caption beside them, are in the table.
  lemma {:induction false} RowsDrawn(children: seq<Node>, groups: bool, readers: Readers)
    ensures DrawnFrom(MarkedText(DirectTableRows(children, groups), readers), MarkedText(children, readers))
    ensures FindCaption(children).Some? ==>
              DrawnFrom(MarkedText(FindCaption(children).value.children, readers)
                          + MarkedText(DirectTableRows(children, groups), readers), MarkedText(children, readers))
    decreases children
  {
    hide MarkedNode, DrawnFrom, RowsHere, DirectTableRows, FindCaption;
    DrawnFromSelf([], []);
    if children == [] {
      NoRows(groups);
    } else {
      var first, rest := children[0], children[1..];
      var rows, here := DirectTableRows(rest, groups), RowsHere(first, groups);
      RowsFromFirst(children, groups);
      var own, later := MarkedNode(first, readers), MarkedText(rest, readers);
      RowsDrawn(rest, groups, readers);
      RowsOfOne(first, groups, readers);
      MarkedConcat(here, rows, readers);
      DrawnBoth(MarkedText(here, readers), own, MarkedText(rows, readers), later);
      if first.Element? && first.name.Caption? {
        DrawnFromSelf(MarkedText(first.children, readers), []);
        MarkedElement(first, MarkedText(first.children, readers), readers);
        DrawnBoth(MarkedText(first.children, readers), own, MarkedText(rows, readers), later);
        NoRowsInCaption(first, groups);
        assert [] + rows == rows;
      } else if FindCaption(rest).Some? {
        var caption := MarkedText(FindCaption(rest).value.children, readers);
        DrawnBoth(MarkedText(here, readers), own, caption + MarkedText(rows, readers), later);
        Swapped(MarkedText(here, readers), caption, MarkedText(rows, readers), own + later);
      }
    }
  }

  lemma Swapped(a: string, b: string, c: string, text: string)
    requires DrawnFrom(a + (b + c), text)
    ensures DrawnFrom(b + (a + c), text)
  {
  }

  lemma {:induction false} RowsOfOne(node: Node, groups: bool, readers: Readers)
    ensures DrawnFrom(MarkedText(RowsHere(node, groups), readers), MarkedNode(node, readers))
    decreases node
  {
    hide DrawnFrom, MarkedNode;
    DrawnFromSelf(MarkedNode(node, readers), MarkedNode(node, readers));
    if node.Element? && node.name.Tr? {
      OneMarked(node, readers);
    } else if groups && IsRowGroup(node) {
      RowsDrawn(node.children, false, readers);
      MarkedElement(node, MarkedText(DirectTableRows(node.children, false), readers), readers);
    }
  }

  // Dropping blank columns and marking headers change no ink.
  lemma DataTableInk(parsed: seq<seq<Cell>>, caption: Option<Inline>, readers: Readers)
    requires parsed != []
    ensures BlockInk(TableBlock(BuildTable(RemoveEmptyUnspannedColumns(parsed), caption, readers))) ==
            Ink(CaptionContents(caption)) + Ink(TableContents(parsed))
  {
    hide BuildTable, RemoveEmptyUnspannedColumns, Filled, TableContents, Ink, PiecesInk;
    var kept := RemoveEmptyUnspannedColumns(parsed);
    var b := TableBlock(BuildTable(kept, caption, readers));
    BuiltTableShown(kept, caption, readers);
    KeptRowsShown(parsed);
    FilledInk(Contents(b));
    FilledInk(CaptionContents(caption));
    FilledInk(TableContents(parsed));
    PiecesInkConcat(Filled(CaptionContents(caption)), Filled(TableContents(parsed)));
  }

  // ---- Blocks -------------------------------------------------------------------------------------

  lemma {:induction false} BlocksInkConcat(a: seq<Block>, b: seq<Block>)
    ensures BlocksInk(a + b) == BlocksInk(a) + BlocksInk(b)
  {
    hide BlockInk;
    if a == [] {
      assert a + b == b;
    } else {
      assert (a + b)[0] == a[0] && (a + b)[1..] == a[1..] + b;
      BlocksInkConcat(a[1..], b);
      assert BlockInk(a[0]) + (BlocksInk(a[1..]) + BlocksInk(b)) == BlockInk(a[0]) + BlocksInk(a[1..]) + BlocksInk(b);
    }
  }

  lemma OneBlockInk(b: Block)
    ensures BlocksInk([b]) == BlockInk(b) && BlocksInk([]) == []
  {
    assert [b][1..] == [];
  }

  // What a pass has made so far, and what it still holds to be flushed.
  function Holding(p: Progress, readers: Readers): string {
    BlocksInk(p.blocks) + MarkedText(p.run, readers)
  }

  lemma PushBlockDrawn(block: Block, p: Progress, text: string, readers: Readers)
    requires DrawnFrom(BlockInk(block), text)
    ensures var r := PushBlock(block, p); DrawnFrom(BlocksInk(r.blocks), BlocksInk(p.blocks) + text) && r.run == p.run
  {
    hide DrawnFrom, BlocksInk, BlockInk;
    DrawnFromSelf(BlocksInk(p.blocks), text);
    DrawnInside(BlocksInk(p.blocks), [], BlocksInk(p.blocks), text);
    DrawnBoth(BlocksInk(p.blocks), BlocksInk(p.blocks), BlockInk(block), text);
    BlocksInkConcat(p.blocks, [block]);
    OneBlockInk(block);
  }

  lemma DrawnInTurn(end: string, next: string, now: string, own: string, later: string)
    requires DrawnFrom(next, now + own) && DrawnFrom(end, next + later)
    ensures DrawnFrom(end, now + (own + later))
  {
  }

  lemma {:induction false} PushBlocksDrawn(blocks: seq<Block>, p: Progress, readers: Readers)
    ensures var r := PushBlocks(blocks, p);
            DrawnFrom(BlocksInk(r.blocks), BlocksInk(p.blocks) + BlocksInk(blocks)) && r.run == p.run
    decreases |blocks|
  {
    hide DrawnFrom, BlockInk, PushBlock;
    if blocks == [] {
      DrawnFromSelf(BlocksInk(p.blocks), []);
      assert BlocksInk(p.blocks) + [] == BlocksInk(p.blocks);
    } else {
      var next := PushBlock(blocks[0], p);
      var own, later := BlockInk(blocks[0]), BlocksInk(blocks[1..]);
      DrawnFromSelf(own, []);
      PushBlockDrawn(blocks[0], p, own, readers);
      PushBlocksDrawn(blocks[1..], next, readers);
      DrawnInTurn(BlocksInk(PushBlocks(blocks, p).blocks), BlocksInk(next.blocks), BlocksInk(p.blocks), own, later);
    }
  }

  lemma FlushDrawn(p: Progress, depth: nat, readers: Readers)
    ensures var r := FlushInlineRun(p, depth, readers);
            r.run == [] && DrawnFrom(BlocksInk(r.blocks), Holding(p, readers))
  {
    hide DrawnFrom, ParseInline, MarkedText, BlocksInk, PushBlock, NonSpace;
    DrawnFromSelf(BlocksInk(p.blocks), []);
    DrawnInside(BlocksInk(p.blocks), [], BlocksInk(p.blocks), MarkedText(p.run, readers));
    if p.run != [] {
      var (content, c) := ParseInline(p.run, p.ctx, depth + 1, true, true, readers);
      ParseInlineDrawn(p.run, p.ctx, depth + 1, true, true, readers);
      OneContentInk(content);
      PushBlockDrawn(ParagraphBlock(content), Progress([], p.blocks, c), MarkedText(p.run, readers), readers);
    }
  }

  lemma OneContentInk(c: Inline)
    ensures Ink([c]) == NonSpace(c.text)
  {
    assert [c][1..] == [];
    assert NonSpace(c.text) + Ink([]) == NonSpace(c.text);
  }

  lemma {:induction false} ItemsDrawn(children: seq<Node>, ctx: Context, depth: nat, readers: Readers)
    ensures DrawnFrom(Ink(ParseItems(children, ctx, depth, readers).0), MarkedText(children, readers))
  {
    hide ParseInline, DrawnFrom, MarkedNode, NonSpace;
    DrawnFromSelf([], MarkedText(children, readers));
    if children != [] {
      var own, rest := MarkedNode(children[0], readers), MarkedText(children[1..], readers);
      if children[0].Element? && children[0].name.Li? {
        var (item, c) := ParseInline(children[0].children, ctx, depth, true, true, readers);
        var later := ParseItems(children[1..], c, depth, readers).0;
        ParseInlineDrawn(children[0].children, ctx, depth, true, true, readers);
        MarkedElement(children[0], NonSpace(item.text), readers);
        ItemsDrawn(children[1..], c, depth, readers);
        DrawnBoth(NonSpace(item.text), own, Ink(later), rest);
        DrawnInside(Ink(later), own, rest, []);
        assert ([item] + later)[1..] == later;
      } else {
        ItemsDrawn(children[1..], ctx, depth, readers);
        DrawnInside(Ink(ParseItems(children[1..], ctx, depth, readers).0), own, rest, []);
      }
    }
  }

  /** For every budget, limits hit or not: the blocks are made of the text of the tree, each character used once. */
  lemma {:induction false} ParseBlocksDrawn(nodes: seq<Node>, ctx: Context, depth: nat, readers: Readers)
    ensures DrawnFrom(BlocksInk(ParseBlocks(nodes, ctx, depth, readers).0), MarkedText(nodes, readers))
    decreases nodes, 4
  {
    hide VisitNodes, FlushInlineRun, DrawnFrom, MarkedNode;
    var start := Progress([], [], ctx);
    var p := VisitNodes(nodes, start, depth, readers);
    VisitNodesDrawn(nodes, start, depth, readers);
    FlushDrawn(p, depth, readers);
    assert Holding(start, readers) + MarkedText(nodes, readers) == MarkedText(nodes, readers);
    DrawnOn(BlocksInk(FlushInlineRun(p, depth, readers).blocks), Holding(p, readers), MarkedText(nodes, readers));
  }

  lemma {:induction false} VisitNodesDrawn(nodes: seq<Node>, p: Progress, depth: nat, readers: Readers)
    ensures DrawnFrom(Holding(VisitNodes(nodes, p, depth, readers), readers),
                      Holding(p, readers) + MarkedText(nodes, readers))
    decreases nodes, 3
  {
    hide VisitNode, DrawnFrom, MarkedNode, BlocksInk;
    var now := Holding(p, readers);
    DrawnFromSelf(now, []);
    DrawnInside(now, [], now, MarkedText(nodes, readers));
    if nodes != [] {
      var (entered, c) := Enter(p.ctx, depth);
      var at, rest := p.(ctx := c), nodes[1..];
      var own, later := MarkedNode(nodes[0], readers), MarkedText(rest, readers);
      assert now + own + later == now + (own + later);
      if entered {
        var next := VisitNode(nodes[0], at, depth, readers);
        VisitNodeDrawn(nodes[0], at, depth, readers);
        VisitNodesDrawn(rest, next, depth, readers);
        DrawnFromSelf(later, []);
        DrawnBoth(Holding(next, readers), now + own, later, later);
        DrawnOn(Holding(VisitNodes(rest, next, depth, readers), readers), Holding(next, readers) + later,
                now + own + later);
      } else if !c.nodeLimitExceeded {
        VisitNodesDrawn(rest, at, depth, readers);
        Skipped(Holding(VisitNodes(rest, at, depth, readers), readers), now, own, later);
      }
    }
  }

  lemma Skipped(ink: string, now: string, own: string, later: string)
    requires DrawnFrom(ink, now + later)
    ensures DrawnFrom(ink, now + (own + later))
  {
  }

  lemma {:induction false} VisitNodeDrawn(node: Node, p: Progress, depth: nat, readers: Readers)
    ensures DrawnFrom(Holding(VisitNode(node, p, depth, readers), readers),
                      Holding(p, readers) + MarkedNode(node, readers))
    decreases node, 2
  {
    hide FlushInlineRun, ElementBlocks, PushBlocks, DrawnFrom, MarkedNode, MarkedText, BlocksInk;
    var now, own := Holding(p, readers), MarkedNode(node, readers);
    DrawnFromSelf(now, []);
    DrawnFromSelf(now + own, []);
    DrawnInside(now, [], now, own);
    MarkedConcat(p.run, [node], readers);
    OneMarked(node, readers);
    assert now + own == BlocksInk(p.blocks) + (MarkedText(p.run, readers) + own);
    if node.Element? && !IsDropped(node.name) && (IsBlockElement(node.name) || ContainsBlockChild(node)) {
      var flushed := FlushInlineRun(p, depth, readers);
      FlushDrawn(p, depth, readers);
      ElementBlocksDrawn(node, flushed.ctx, depth, readers);
      var (blocks, c) := ElementBlocks(node, flushed.ctx, depth, readers);
      var end := PushBlocks(blocks, flushed.(ctx := c));
      PushBlocksDrawn(blocks, flushed.(ctx := c), readers);
      DrawnBoth(BlocksInk(flushed.blocks), now, BlocksInk(blocks), own);
      DrawnOn(BlocksInk(end.blocks), BlocksInk(flushed.blocks) + BlocksInk(blocks), now + own);
      assert MarkedText([], readers) == [] by { NothingMarked(readers); }
      assert BlocksInk(end.blocks) + [] == BlocksInk(end.blocks);
    }
  }

  lemma NothingMarked(readers: Readers)
    ensures MarkedText([], readers) == []
  {
  }

  lemma {:induction false} ElementBlocksDrawn(node: Node, ctx: Context, depth: nat, readers: Readers)
    requires node.Element? && !IsDropped(node.name)
    ensures DrawnFrom(BlocksInk(ElementBlocks(node, ctx, depth, readers).0), MarkedNode(node, readers))
    decreases node, 1
  {
    hide ParseInline, CollectText, ParseItems, ParseBlocks, ParseTableElement, DrawnFrom, MarkedText, NonSpace, TrimEnd;
    var name := node.name;
    var blocks := ElementBlocks(node, ctx, depth, readers).0;
    DrawnFromSelf([], MarkedText(node.children, readers));
    MarkedElement(node, [], readers);
    if name.Pre? {
      var collected := CollectText(node.children, ctx, depth + 1, true).0;
      CollectTextDrawn(node.children, ctx, depth + 1, true, readers);
      TrimmedEndInk(collected);
      OneBlockInk(PreBlock(TextOf(TrimEnd(TextTokens(collected)))));
      MarkedElement(node, NonSpace(collected), readers);
    } else if name.Hr? {
      OneBlockInk(DividerBlock);
      NoInk();
    } else if name.Ul? || name.Ol? {
      var items := ParseItems(node.children, ctx, depth + 1, readers).0;
      ItemsDrawn(node.children, ctx, depth + 1, readers);
      OneBlockInk(ListBlock(name.Ol?, if name.Ol? then BoundedListStart(node.attrs.start, readers) else 1, items));
      MarkedElement(node, Ink(items), readers);
    } else if name.Table? {
      ParseTableDrawn(node, ctx, depth + 1, readers);
      MarkedElement(node, BlocksInk(blocks), readers);
    } else if ContainsBlockChild(node) && !name.Heading? && !name.Blockquote? && !name.Footer? {
      ParseBlocksDrawn(node.children, ctx, depth + 1, readers);
      MarkedElement(node, BlocksInk(blocks), readers);
    } else {
      var content := ParseInline(node.children, ctx, depth + 1, true, true, readers).0;
      ParseInlineDrawn(node.children, ctx, depth + 1, true, true, readers);
      ContentBlockInk(name, content);
      MarkedElement(node, NonSpace(content.text), readers);
    }
  }

  lemma ContentBlockInk(name: TagName, content: Inline)
    ensures BlocksInk(ContentBlock(name, content)) == if content.text == [] then [] else NonSpace(content.text)
  {
    OneContentInk(content);
    if content.text != [] {
      OneBlockInk(ContentBlock(name, content)[0]);
    }
  }

  lemma TrimmedEndInk(text: string)
    ensures NonSpace(TextOf(TrimEnd(TextTokens(text)))) == NonSpace(text)
  {
    TrimEndAlike(TextTokens(text));
    NonSpaceOfText(TrimEnd(TextTokens(text)));
    VisibleOfText(text);
  }

  lemma {:induction false} ParseTableDrawn(table: Node, ctx: Context, depth: nat, readers: Readers)
    requires table.Element?
    ensures DrawnFrom(BlocksInk(ParseTableElement(table, ctx, depth, readers).0), MarkedText(table.children, readers))
    decreases table, 0
  {
    hide ContainsNestedTable, FlattenLayoutTable, ParseRows, ParseInline, BuildTable, RemoveEmptyUnspannedColumns,
         DirectTableRows, MarkedText, DrawnFrom, BlockInk, Ink, TableContents;
    var rows := DirectTableRows(table.children, true);
    var (nested, c1) := ContainsNestedTable(table.children, ctx, depth + 1);
    LayoutDrawn(table.children, c1, depth + 1, readers);
    if !table.attrs.presentation && !nested {
      var (parsed, c2) := ParseRows(rows, c1, depth + 1, readers);
      LayoutDrawn(table.children, c2, depth + 1, readers);
      if parsed != [] {
        var caption := ParseCaption(table.children, c2, depth + 1, readers).0;
        DataTableDrawn(table.children, c1, c2, depth + 1, readers);
        DataTableInk(parsed, caption, readers);
        OneBlockInk(TableBlock(BuildTable(RemoveEmptyUnspannedColumns(parsed), caption, readers)));
      }
    }
  }

  lemma DataTableDrawn(children: seq<Node>, c1: Context, c2: Context, depth: nat, readers: Readers)
    ensures var rows := DirectTableRows(children, true);
            var parsed, caption := ParseRows(rows, c1, depth, readers).0, ParseCaption(children, c2, depth, readers).0;
            DrawnFrom(Ink(CaptionContents(caption)) + Ink(TableContents(parsed)), MarkedText(children, readers))
  {
    hide ParseRows, ParseInline, DirectTableRows, MarkedText, DrawnFrom, Ink, TableContents, NonSpace;
    var rows := DirectTableRows(children, true);
    var parsed := ParseRows(rows, c1, depth, readers).0;
    var ink, text := Ink(TableContents(parsed)), MarkedText(children, readers);
    ParseRowsDrawn(rows, c1, depth, readers);
    RowsDrawn(children, true, readers);
    if FindCaption(children).Some? {
      var below := FindCaption(children).value.children;
      var content := ParseInline(below, c2, depth, true, true, readers).0;
      ParseInlineDrawn(below, c2, depth, true, true, readers);
      OneContentInk(content);
      DrawnBoth(NonSpace(content.text), MarkedText(below, readers), ink, MarkedText(rows, readers));
      DrawnOn(NonSpace(content.text) + ink, MarkedText(below, readers) + MarkedText(rows, readers), text);
    } else {
      NoInk();
      DrawnOn(ink, MarkedText(rows, readers), text);
      assert [] + ink == ink;
    }
  }

  lemma {:induction false} LayoutDrawn(children: seq<Node>, ctx: Context, depth: nat, readers: Readers)
    ensures DrawnFrom(BlocksInk(FlattenLayoutTable(children, ctx, depth, readers).0), MarkedText(children, readers))
    decreases children, 6
  {
    hide BlocksInk, DrawnFrom, MarkedText, FlattenCell, FlattenRows, DirectTableRows;
    LayoutCellDrawn(children, ctx, depth, readers);
    LayoutRowsDrawn(children, true, ctx, depth, readers);
  }

  lemma {:induction false} LayoutRowsDrawn(
    children: seq<Node>, groups: bool, ctx: Context, depth: nat, readers: Readers)
    ensures DrawnFrom(BlocksInk(FlattenRows(children, groups, ctx, depth, readers).0), MarkedText(children, readers))
    decreases children, 5
  {
    hide FlattenCells, DrawnFrom, MarkedNode, BlocksInk;
    OneBlockInk(DividerBlock);
    DrawnFromSelf([], MarkedText(children, readers));
    if children != [] {
      var first, rest := children[0], children[1..];
      DrawnFromSelf([], MarkedNode(first, readers));
      var (blocks, c1) :=
        if first.Element? && first.name.Tr? then FlattenCells(first.children, ctx, depth, readers)
        else if groups && IsRowGroup(first) then FlattenRows(first.children, false, ctx, depth, readers)
        else ([], ctx);
      if first.Element? && first.name.Tr? {
        LayoutCellsDrawn(first.children, ctx, depth, readers);
        MarkedElement(first, BlocksInk(blocks), readers);
      } else if groups && IsRowGroup(first) {
        LayoutRowsDrawn(first.children, false, ctx, depth, readers);
        MarkedElement(first, BlocksInk(blocks), readers);
      }
      LayoutRowsDrawn(rest, groups, c1, depth, readers);
      var later := FlattenRows(rest, groups, c1, depth, readers).0;
      BlocksInkConcat(blocks, later);
      DrawnBoth(BlocksInk(blocks), MarkedNode(first, readers), BlocksInk(later), MarkedText(rest, readers));
    }
  }

  lemma {:induction false} LayoutCellsDrawn(children: seq<Node>, ctx: Context, depth: nat, readers: Readers)
    ensures DrawnFrom(BlocksInk(FlattenCells(children, ctx, depth, readers).0), MarkedText(children, readers))
    decreases children, 5
  {
    hide FlattenCell, DrawnFrom, MarkedNode, BlocksInk;
    OneBlockInk(DividerBlock);
    DrawnFromSelf([], MarkedText(children, readers));
    if children != [] {
      var first, rest := children[0], children[1..];
      DrawnFromSelf([], MarkedNode(first, readers));
      var (blocks, c1) := if IsCell(first) then FlattenCell(first.children, ctx, depth, readers) else ([], ctx);
      if IsCell(first) {
        LayoutCellDrawn(first.children, ctx, depth, readers);
        MarkedElement(first, BlocksInk(blocks), readers);
      }
      LayoutCellsDrawn(rest, c1, depth, readers);
      var later := FlattenCells(rest, c1, depth, readers).0;
      BlocksInkConcat(blocks, later);
      DrawnBoth(BlocksInk(blocks), MarkedNode(first, readers), BlocksInk(later), MarkedText(rest, readers));
    }
  }

  // A cell is parsed again as inline content only if it made no block.
  lemma {:induction false} LayoutCellDrawn(content: seq<Node>, ctx: Context, depth: nat, readers: Readers)
    ensures DrawnFrom(BlocksInk(FlattenCell(content, ctx, depth, readers).0), MarkedText(content, readers))
    decreases content, 5
  {
    hide ParseBlocks, ParseInline, DrawnFrom, MarkedText, BlocksInk, NonSpace;
    var (blocks, c1) := ParseBlocks(content, ctx, depth + 1, readers);
    ParseBlocksDrawn(content, ctx, depth + 1, readers);
    if blocks == [] {
      var inlined := ParseInline(content, c1, depth + 1, true, true, readers).0;
      ParseInlineDrawn(content, c1, depth + 1, true, true, readers);
      OneContentInk(inlined);
      OneBlockInk(ParagraphBlock(inlined));
      DrawnFromSelf([], MarkedText(content, readers));
    }
  }

  /**
   * For every document, however much of it was cut: its blocks show no character but those of the tree and of the
   * notice, and none more often.
   */
  lemma DocumentAddsNothing(
    children: seq<Node>, sourceTruncated: bool, domTruncated: bool, notice: string, readers: Readers)
    ensures var (parsed, ctx) := ParseBlocks(children, FreshContext(sourceTruncated, domTruncated), 0, readers);
            var blocks := DocumentBlocks(parsed, ctx, notice);
            DrawnFrom(BlocksInk(blocks),
                      MarkedText(children, readers) + if ctx.Truncated() then NonSpace(notice) else [])
  {
    hide ParseBlocks, BlocksInk, DrawnFrom, MarkedText, NonSpace, BlockInk;
    var (parsed, ctx) := ParseBlocks(children, FreshContext(sourceTruncated, domTruncated), 0, readers);
    var text, block := MarkedText(children, readers), ParagraphBlock(PlainText(notice));
    ParseBlocksDrawn(children, FreshContext(sourceTruncated, domTruncated), 0, readers);
    assert text + [] == text;
    if ctx.Truncated() {
      NoticeInk(notice);
      OneBlockInk(block);
      BlocksInkConcat(parsed, [block]);
      DrawnFromSelf(NonSpace(notice), []);
      DrawnBoth(BlocksInk(parsed), text, NonSpace(notice), NonSpace(notice));
      if |parsed| >= MAX_MODEL_BLOCKS {
        Replaced(parsed, MAX_MODEL_BLOCKS - 1, block);
        DrawnOn(BlocksInk(parsed[MAX_MODEL_BLOCKS - 1 := block]), BlocksInk(parsed) + BlockInk(block),
                text + NonSpace(notice));
      }
    }
  }

  lemma NoticeInk(notice: string)
    ensures BlockInk(ParagraphBlock(PlainText(notice))) == NonSpace(notice)
  {
    OneContentInk(PlainText(notice));
  }

  lemma Replaced(blocks: seq<Block>, i: nat, block: Block)
    requires i < |blocks|
    ensures DrawnFrom(BlocksInk(blocks[i := block]), BlocksInk(blocks) + BlockInk(block))
  {
    hide BlocksInk, BlockInk;
    var before, after := blocks[..i], blocks[i + 1..];
    assert blocks == before + ([blocks[i]] + after);
    assert blocks[i := block] == before + ([block] + after);
    BlocksInkConcat(before, [blocks[i]] + after);
    BlocksInkConcat([blocks[i]], after);
    BlocksInkConcat(before, [block] + after);
    BlocksInkConcat([block], after);
    OneBlockInk(block);
  }
}
