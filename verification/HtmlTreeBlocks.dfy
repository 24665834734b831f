/**
 * The blocks of a document, read off the tree: which element becomes which
 * block, without budget and without the state of a pass. Parsed without limits,
 * every tree makes exactly these.
 */
module HtmlTreeBlocks {
  import opened HtmlTokens
  import opened HtmlNormalize
  import opened HtmlLinks
  import opened HtmlDom
  import opened HtmlInline
  import opened HtmlBlocks
  import opened HtmlRender
  import opened HtmlInk
  import opened HtmlRuns
  import opened HtmlShown
  import opened HtmlClassicTree

  // Inline content that shows anything, as one block.
  function Shows(nodes: seq<Node>, block: Block, readers: Readers): seq<Block> {
    if InlineInk(nodes, readers, true) == [] then [] else [block]
  }

  function Paragraph(nodes: seq<Node>, readers: Readers): seq<Block> {
    Shows(nodes, ParagraphBlock(InlineOf(nodes, readers)), readers)
  }

  /** The blocks of sibling nodes, after the inline nodes in `pending`. */
  function TreeBlocks(nodes: seq<Node>, pending: seq<Node>, readers: Readers): seq<Block>
    decreases nodes, 4
  {
    if nodes == [] then Paragraph(pending, readers)
    else if OpensBlock(nodes[0]) then
      Paragraph(pending, readers) + BlocksOf(nodes[0], readers) + TreeBlocks(nodes[1..], [], readers)
    else TreeBlocks(nodes[1..], if JoinsRun(nodes[0]) then pending + [nodes[0]] else pending, readers)
  }

  function BlocksOf(node: Node, readers: Readers): seq<Block>
    requires node.Element?
    decreases node, 1
  {
    var children := node.children;
    match node.name
    case Heading(level) => Shows(children, HeadingBlock(level, InlineOf(children, readers)), readers)
    case Blockquote => Shows(children, QuoteBlock(InlineOf(children, readers)), readers)
    case Footer => Shows(children, FooterBlock(InlineOf(children, readers)), readers)
    case Pre => if CollectedInk(children) == [] then [] else [PreBlock(PreText(children))]
    case Hr => [DividerBlock]
    case Ul => ListOf(false, 1, ItemsOf(children, readers))
    case Ol => ListOf(true, StartOf(node.attrs.start, readers), ItemsOf(children, readers))
    case Table =>
      if IsDataTable(node, readers) then
        DataTableRows(node, readers);
        [TableBlock(TableOf(node, readers))]
      else LayoutBlocks(children, readers)
    case _ => if ContainsBlockChild(node) then TreeBlocks(children, [], readers) else Paragraph(children, readers)
  }

  function ListOf(ordered: bool, start: int, items: seq<Inline>): seq<Block> {
    if items == [] then [] else [ListBlock(ordered, start, items)]
  }

  // The number an ordered list starts at: what its attribute says, or 1.
  function StartOf(raw: Option<string>, readers: Readers): int {
    if raw.Some? && readers.listNumber(raw.value).Some? then readers.listNumber(raw.value).value else 1
  }

  // The items that show anything.
  function ItemsOf(children: seq<Node>, readers: Readers): seq<Inline> {
    if children == [] then []
    else
      (if children[0].Element? && children[0].name.Li? && InlineInk(children[0].children, readers, true) != [] then
         [InlineOf(children[0].children, readers)]
       else []) + ItemsOf(children[1..], readers)
  }

  function LayoutBlocks(children: seq<Node>, readers: Readers): seq<Block>
    decreases children, 6
  {
    if DirectTableRows(children, true) == [] then LayoutCellBlocks(children, readers)
    else LayoutRowBlocks(children, true, readers)
  }

  function LayoutRowBlocks(children: seq<Node>, groups: bool, readers: Readers): seq<Block>
    decreases children, 5
  {
    if children == [] then []
    else
      var first := children[0];
      (if first.Element? && first.name.Tr? then LayoutCellsBlocks(first.children, readers)
       else if groups && IsRowGroup(first) then LayoutRowBlocks(first.children, false, readers)
       else []) + LayoutRowBlocks(children[1..], groups, readers)
  }

  function LayoutCellsBlocks(children: seq<Node>, readers: Readers): seq<Block>
    decreases children, 5
  {
    if children == [] then []
    else
      (if IsCell(children[0]) then LayoutCellBlocks(children[0].children, readers) else [])
        + LayoutCellsBlocks(children[1..], readers)
  }

  // A cell used for layout: its blocks, or one paragraph if it makes none.
  function LayoutCellBlocks(content: seq<Node>, readers: Readers): seq<Block>
    decreases content, 5
  {
    var blocks := TreeBlocks(content, [], readers);
    if blocks != [] then blocks else Paragraph(content, readers)
  }

  // ---- The parser makes these -------------------------------------------------------------------

  lemma DataTableRows(table: Node, readers: Readers)
    requires table.Element? && IsDataTable(table, readers)
    ensures RowsOf(table, readers) != []
  {
    hide ParseRows, IsDataTable;
    DataTableBlock(table, FREE, 0, readers);
  }

  // Content parsed anywhere has text exactly if it shows anything.
  lemma ContentAnywhere(nodes: seq<Node>, ctx: Context, depth: nat, readers: Readers)
    requires !ctx.bounded
    ensures var content := ParseInline(nodes, ctx, depth, true, true, readers).0;
            content == InlineOf(nodes, readers) && (content.text == [] <==> InlineInk(nodes, readers, true) == [])
  {
    hide ParseInline, InlineInk;
    InlineOfAnywhere(nodes, ctx, depth, readers);
    ParseInlineInk(nodes, ctx, depth, true, true, readers);
  }

  lemma FlushedParagraph(p: Progress, depth: nat, readers: Readers)
    requires !p.ctx.bounded
    ensures FlushInlineRun(p, depth, readers) == Progress([], p.blocks + Paragraph(p.run, readers), p.ctx)
  {
    hide ParseInline, InlineOf;
    if p.run == [] {
      assert Paragraph([], readers) == [];
      assert p.blocks + [] == p.blocks;
    } else {
      ContentAnywhere(p.run, p.ctx, depth + 1, readers);
      assert p.blocks + [] == p.blocks;
    }
  }

  lemma {:induction false} ItemsAnywhere(children: seq<Node>, ctx: Context, depth: nat, readers: Readers)
    requires !ctx.bounded
    ensures ParseItems(children, ctx, depth, readers).0 == ItemsOf(children, readers)
  {
    hide ParseInline, InlineOf, InlineInk;
    if children != [] {
      if children[0].Element? && children[0].name.Li? {
        ContentAnywhere(children[0].children, ctx, depth, readers);
      }
      ItemsAnywhere(children[1..], ctx, depth, readers);
    }
  }

  /**
   * For every tree, parsed without limits: the blocks are those read off the
   * tree, each of the kind its element stands for.
   */
  lemma {:induction false} ParseBlocksTree(nodes: seq<Node>, ctx: Context, depth: nat, readers: Readers)
    requires !ctx.bounded
    ensures ParseBlocks(nodes, ctx, depth, readers).0 == TreeBlocks(nodes, [], readers)
    decreases nodes, 4
  {
    hide VisitNodes, FlushInlineRun, TreeBlocks;
    VisitNodesTree(nodes, Progress([], [], ctx), depth, readers);
    assert [] + TreeBlocks(nodes, [], readers) == TreeBlocks(nodes, [], readers);
  }

  lemma {:induction false} VisitNodesTree(nodes: seq<Node>, p: Progress, depth: nat, readers: Readers)
    requires !p.ctx.bounded
    ensures FlushInlineRun(VisitNodes(nodes, p, depth, readers), depth, readers).blocks ==
            p.blocks + TreeBlocks(nodes, p.run, readers)
    decreases nodes, 3
  {
    hide ElementBlocks, BlocksOf, FlushInlineRun, PushBlocks, Paragraph, IsBlank, ContainsBlockChild, IsBlockElement,
         IsDropped;
    if nodes == [] {
      FlushedParagraph(p, depth, readers);
    } else if OpensBlock(nodes[0]) {
      var q := VisitNode(nodes[0], p, depth, readers);
      VisitBlockTree(nodes[0], p, depth, readers);
      VisitNodesTree(nodes[1..], q, depth, readers);
      var run, own := Paragraph(p.run, readers), BlocksOf(nodes[0], readers);
      var later := TreeBlocks(nodes[1..], [], readers);
      assert p.blocks + run + own + later == p.blocks + (run + own + later);
    } else {
      VisitNodesTree(nodes[1..], VisitNode(nodes[0], p, depth, readers), depth, readers);
    }
  }

  lemma {:induction false} VisitBlockTree(node: Node, p: Progress, depth: nat, readers: Readers)
    requires !p.ctx.bounded && OpensBlock(node)
    ensures VisitNode(node, p, depth, readers) ==
            Progress([], p.blocks + Paragraph(p.run, readers) + BlocksOf(node, readers), p.ctx)
    decreases node, 2
  {
    hide ElementBlocks, BlocksOf, FlushInlineRun, PushBlocks, Paragraph;
    var flushed := FlushInlineRun(p, depth, readers);
    FlushedParagraph(p, depth, readers);
    ElementBlocksTree(node, p.ctx, depth, readers);
    PushedBlocks(ElementBlocks(node, p.ctx, depth, readers).0, flushed);
  }

  lemma {:induction false} ElementBlocksTree(node: Node, ctx: Context, depth: nat, readers: Readers)
    requires !ctx.bounded && node.Element?
    ensures ElementBlocks(node, ctx, depth, readers).0 == BlocksOf(node, readers)
    decreases node, 1
  {
    hide ParseInline, InlineOf, CollectText, ParseItems, ItemsOf, ParseTableElement, IsDataTable, ParseBlocks,
         TreeBlocks, TableOf, LayoutBlocks, InlineInk, CollectedInk, TextOf, ContainsBlockChild;
    var name := node.name;
    if name.Pre? {
      CollectTextAnywhere(node.children, ctx, depth + 1, FREE, 0, true);
      PreTextInk(node.children);
    } else if name.Hr? {
    } else if name.Ul? || name.Ol? {
      ItemsAnywhere(node.children, ctx, depth + 1, readers);
    } else if name.Table? {
      TableTree(node, ctx, depth + 1, readers);
    } else if ContainsBlockChild(node) && !name.Heading? && !name.Blockquote? && !name.Footer? {
      ParseBlocksTree(node.children, ctx, depth + 1, readers);
    } else {
      ContentAnywhere(node.children, ctx, depth + 1, readers);
    }
  }

  lemma {:induction false} TableTree(table: Node, ctx: Context, depth: nat, readers: Readers)
    requires !ctx.bounded && table.Element? && table.name.Table?
    ensures ParseTableElement(table, ctx, depth, readers).0 == BlocksOf(table, readers)
    decreases table, 0
  {
    hide IsDataTable, ParseTableElement, LayoutBlocks, FlattenLayoutTable, TableOf;
    if IsDataTable(table, readers) {
      DataTableBlock(table, ctx, depth, readers);
    } else {
      OtherTablesAreLayout(table, ctx, depth, readers);
      LayoutTree(table.children, ctx, depth + 1, readers);
    }
  }

  lemma {:induction false} LayoutTree(children: seq<Node>, ctx: Context, depth: nat, readers: Readers)
    requires !ctx.bounded
    ensures FlattenLayoutTable(children, ctx, depth, readers).0 == LayoutBlocks(children, readers)
    decreases children, 6
  {
    hide FlattenCell, LayoutCellBlocks, FlattenRows, LayoutRowBlocks;
    if DirectTableRows(children, true) == [] {
      LayoutCellTree(children, ctx, depth, readers);
    } else {
      LayoutRowsTree(children, true, ctx, depth, readers);
    }
  }

  lemma {:induction false} LayoutRowsTree(
    children: seq<Node>, groups: bool, ctx: Context, depth: nat, readers: Readers)
    requires !ctx.bounded
    ensures FlattenRows(children, groups, ctx, depth, readers).0 == LayoutRowBlocks(children, groups, readers)
    decreases children, 5
  {
    hide FlattenCells, LayoutCellsBlocks;
    if children != [] {
      var first := children[0];
      if first.Element? && first.name.Tr? {
        LayoutCellsTree(first.children, ctx, depth, readers);
      } else if groups && IsRowGroup(first) {
        LayoutRowsTree(first.children, false, ctx, depth, readers);
      }
      LayoutRowsTree(children[1..], groups, ctx, depth, readers);
    }
  }

  lemma {:induction false} LayoutCellsTree(children: seq<Node>, ctx: Context, depth: nat, readers: Readers)
    requires !ctx.bounded
    ensures FlattenCells(children, ctx, depth, readers).0 == LayoutCellsBlocks(children, readers)
    decreases children, 5
  {
    hide FlattenCell, LayoutCellBlocks;
    if children != [] {
      if IsCell(children[0]) {
        LayoutCellTree(children[0].children, ctx, depth, readers);
      }
      LayoutCellsTree(children[1..], ctx, depth, readers);
    }
  }

  lemma {:induction false} LayoutCellTree(content: seq<Node>, ctx: Context, depth: nat, readers: Readers)
    requires !ctx.bounded
    ensures FlattenCell(content, ctx, depth, readers).0 == LayoutCellBlocks(content, readers)
    decreases content, 5
  {
    hide ParseBlocks, TreeBlocks, ParseInline, InlineOf, InlineInk;
    ParseBlocksTree(content, ctx, depth + 1, readers);
    ContentAnywhere(content, ctx, depth + 1, readers);
  }

  // ---- Preformatted text ------------------------------------------------------------------------

  lemma {:induction false} NothingToUnify(ts: seq<Token>)
    requires Ch('\r') !in ts
    ensures UnifyNewlines(ts) == ts
  {
    if ts != [] {
      NothingToUnify(ts[1..]);
      assert ts == [ts[0]] + ts[1..];
    }
  }

  /** Preformatted text stays as it is, white space included. */
  lemma PreIsVerbatim(text: string, attrs: Attributes, ordinal: Option<int>, readers: Readers)
    requires text != "" && '\r' !in text && !IsSpace(text[|text| - 1])
    ensures BlocksOf(Element(TagName.Pre, attrs, ordinal, [Text(text)]), readers) == [PreBlock(text)]
  {
    hide TextOf, UnifyNewlines, NonSpace;
    var nodes, ts := [Text(text)], TextTokens(text);
    assert nodes[1..] == [] && text + "" == text;
    assert CollectParts(nodes, FREE, 0, true).0 == text + CollectParts([], FREE, 0, true).0 == text;
    assert Ch('\r') !in ts;
    NothingToUnify(ts);
    TextOfText(text);
    assert TrimEnd(ts) == ts;
    assert PreText(nodes) == text;
    PreTextInk(nodes);
  }
}
