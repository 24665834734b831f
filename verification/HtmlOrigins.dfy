/**
 * Where the contents of a document come from: each was parsed from nodes of
 * the tree, under whatever budget was left.
 */
module HtmlOrigins {
  import opened HtmlTokens
  import opened HtmlNormalize
  import opened HtmlLinks
  import opened HtmlDom
  import opened HtmlInline
  import opened HtmlBlocks
  import opened HtmlRender
  import Layout = TableLayout

  // One of the nodes, or a node somewhere below one.
  predicate LiesBelow(node: Node, nodes: seq<Node>) {
    nodes != [] &&
    (node == nodes[0] || (nodes[0].Element? && LiesBelow(node, nodes[0].children)) || LiesBelow(node, nodes[1..]))
  }

  predicate AllBelow(some: seq<Node>, root: seq<Node>) {
    forall n | n in some :: LiesBelow(n, root)
  }

  /** Content that was parsed from nodes below `root`, or is empty. */
  ghost predicate Origin(c: Inline, root: seq<Node>, readers: Readers) {
    c == EmptyInline() ||
    exists nodes: seq<Node>, ctx: Context, depth: nat ::
      AllBelow(nodes, root) && c == ParseInline(nodes, ctx, depth, true, true, readers).0
  }

  lemma {:induction false} ListedIsBelow(node: Node, root: seq<Node>)
    requires node in root
    ensures LiesBelow(node, root)
  {
    if node != root[0] {
      ListedIsBelow(node, root[1..]);
    }
  }

  lemma {:induction false} BelowChild(node: Node, parent: Node, root: seq<Node>)
    requires LiesBelow(parent, root) && parent.Element? && LiesBelow(node, parent.children)
    ensures LiesBelow(node, root)
    decreases root
  {
    if parent != root[0] {
      if root[0].Element? && LiesBelow(parent, root[0].children) {
        BelowChild(node, parent, root[0].children);
      } else {
        BelowChild(node, parent, root[1..]);
      }
    }
  }

  lemma ChildrenBelow(parent: Node, root: seq<Node>)
    requires LiesBelow(parent, root) && parent.Element?
    ensures AllBelow(parent.children, root)
  {
    forall n | n in parent.children ensures LiesBelow(n, root) {
      ListedIsBelow(n, parent.children);
      BelowChild(n, parent, root);
    }
  }

  lemma RootBelow(root: seq<Node>)
    ensures AllBelow(root, root)
  {
    forall n | n in root ensures LiesBelow(n, root) { ListedIsBelow(n, root); }
  }

  lemma OriginOf(nodes: seq<Node>, ctx: Context, depth: nat, root: seq<Node>, readers: Readers)
    requires AllBelow(nodes, root)
    ensures Origin(ParseInline(nodes, ctx, depth, true, true, readers).0, root, readers)
  {
    hide ParseInline, LiesBelow;
  }

  // ---- Tables -------------------------------------------------------------------------------------------

  ghost predicate RowFrom(row: seq<Cell>, root: seq<Node>, readers: Readers) {
    forall cell | cell in row :: Origin(cell.content, root, readers)
  }

  ghost predicate RowsFrom(rows: seq<seq<Cell>>, root: seq<Node>, readers: Readers) {
    forall row | row in rows :: RowFrom(row, root, readers)
  }

  ghost predicate BlockFrom(b: Block, root: seq<Node>, readers: Readers) {
    if b.TableBlock? then
      RowsFrom(b.table.rows, root, readers)
      && (b.table.caption.Some? ==> Origin(b.table.caption.value, root, readers))
    else forall c | c in Contents(b) :: Origin(c, root, readers)
  }

  ghost predicate BlocksFrom(blocks: seq<Block>, root: seq<Node>, readers: Readers) {
    forall b | b in blocks :: BlockFrom(b, root, readers)
  }

  lemma {:induction false} ParseCellsFrom(
    children: seq<Node>, ctx: Context, depth: nat, root: seq<Node>, readers: Readers)
    requires AllBelow(children, root)
    ensures RowFrom(ParseCells(children, ctx, depth, readers).0, root, readers)
  {
    hide Origin, LiesBelow, ParseInline, IsEntireCellStrong;
    if children != [] {
      if IsCell(children[0]) {
        ChildrenBelow(children[0], root);
        OriginOf(children[0].children, ctx, depth + 1, root, readers);
        ParseCellsFrom(children[1..], ParseCell(children[0], ctx, depth, readers).1, depth, root, readers);
      } else {
        ParseCellsFrom(children[1..], ctx, depth, root, readers);
      }
    }
  }

  lemma {:induction false} RowsBelow(children: seq<Node>, groups: bool, root: seq<Node>)
    requires AllBelow(children, root)
    ensures AllBelow(DirectTableRows(children, groups), root)
    decreases children
  {
    hide LiesBelow;
    if children != [] {
      if groups && IsRowGroup(children[0]) {
        ChildrenBelow(children[0], root);
        RowsBelow(children[0].children, false, root);
      }
      RowsBelow(children[1..], groups, root);
    }
  }

  lemma {:induction false} ParseRowsFrom(rows: seq<Node>, ctx: Context, depth: nat, root: seq<Node>, readers: Readers)
    requires AllBelow(rows, root) && forall r | r in rows :: r.Element?
    ensures RowsFrom(ParseRows(rows, ctx, depth, readers).0, root, readers)
  {
    hide RowFrom, LiesBelow, ParseCells, HasText;
    if rows != [] {
      ChildrenBelow(rows[0], root);
      ParseCellsFrom(rows[0].children, ctx, depth, root, readers);
      ParseRowsFrom(rows[1..], ParseCells(rows[0].children, ctx, depth, readers).1, depth, root, readers);
    }
  }

  lemma KeptColumnsFrom(rows: seq<seq<Cell>>, root: seq<Node>, readers: Readers)
    requires RowsFrom(rows, root, readers)
    ensures RowsFrom(RemoveEmptyUnspannedColumns(rows), root, readers)
  {
    hide Origin;
    EmptyFrom(root, readers);
    if !IsSpanned(rows) {
      var kept := RemoveEmptyUnspannedColumns(rows);
      forall i | 0 <= i < |kept| ensures RowFrom(kept[i], root, readers) {
        assert RowFrom(rows[i], root, readers);
        forall j | 0 <= j < |kept[i]| ensures Origin(kept[i][j].content, root, readers) {
          assert kept[i][j] == CellAt(rows[i], KeptColumns(rows, 0)[j]);
        }
      }
    }
  }

  lemma EmptyFrom(root: seq<Node>, readers: Readers)
    ensures Origin(EmptyInline(), root, readers)
  {
  }

  lemma MarkHeadersFrom(row: seq<Cell>, every: nat, root: seq<Node>, readers: Readers)
    requires RowFrom(row, root, readers) && every > 0
    ensures RowFrom(MarkHeaders(row, every), root, readers)
  {
    hide Origin;
    forall i | 0 <= i < |row| ensures Origin(MarkHeaders(row, every)[i].content, root, readers) {
      assert row[i] in row;
    }
  }

  lemma BuildTableFrom(rows: seq<seq<Cell>>, caption: Option<Inline>, root: seq<Node>, readers: Readers)
    requires RowsFrom(rows, root, readers) && rows != []
    requires caption.Some? ==> Origin(caption.value, root, readers)
    ensures BlockFrom(TableBlock(BuildTable(rows, caption, readers)), root, readers)
  {
    hide Origin, RowFrom, IsHeaderRow, MarkHeaders, CountLeadingHeaderRows, IsKeyValueTable;
    assert RowFrom(rows[0], root, readers);
    MarkHeadersFrom(rows[0], 1, root, readers);
    var headed := if IsHeaderRow(rows[0], rows[1..]) then [MarkHeaders(rows[0], 1)] + rows[1..] else rows;
    assert RowsFrom(headed, root, readers);
    forall i | 0 <= i < |headed| ensures RowFrom(MarkKeys(headed)[i], root, readers) {
      MarkHeadersFrom(headed[i], 2, root, readers);
    }
  }

  // ---- Blocks ---------------------------------------------------------------------------------------------

  ghost predicate ProgressFrom(p: Progress, root: seq<Node>, readers: Readers) {
    AllBelow(p.run, root) && BlocksFrom(p.blocks, root, readers)
  }

  lemma {:induction false} PushBlocksFrom(blocks: seq<Block>, p: Progress, root: seq<Node>, readers: Readers)
    requires BlocksFrom(blocks, root, readers) && ProgressFrom(p, root, readers)
    ensures ProgressFrom(PushBlocks(blocks, p), root, readers)
    decreases |blocks|
  {
    hide BlockFrom, LiesBelow;
    if blocks != [] {
      PushBlocksFrom(blocks[1..], PushBlock(blocks[0], p), root, readers);
    }
  }

  lemma FlushFrom(p: Progress, depth: nat, root: seq<Node>, readers: Readers)
    requires ProgressFrom(p, root, readers)
    ensures ProgressFrom(FlushInlineRun(p, depth, readers), root, readers)
  {
    hide ParseInline, Origin, LiesBelow;
    if p.run != [] {
      OriginOf(p.run, p.ctx, depth + 1, root, readers);
    }
  }

  lemma {:induction false} ItemsFrom(children: seq<Node>, ctx: Context, depth: nat, root: seq<Node>, readers: Readers)
    requires AllBelow(children, root)
    ensures forall c | c in ParseItems(children, ctx, depth, readers).0 :: Origin(c, root, readers)
  {
    hide ParseInline, Origin, LiesBelow;
    if children != [] {
      if children[0].Element? && children[0].name.Li? {
        ChildrenBelow(children[0], root);
        OriginOf(children[0].children, ctx, depth, root, readers);
        ItemsFrom(children[1..], ParseInline(children[0].children, ctx, depth, true, true, readers).1, depth, root,
                  readers);
      } else {
        ItemsFrom(children[1..], ctx, depth, root, readers);
      }
    }
  }

  /** For every budget, limits hit or not: every content of every block was parsed from nodes below the root. */
  lemma {:induction false} ParseBlocksFrom(
    nodes: seq<Node>, ctx: Context, depth: nat, root: seq<Node>, readers: Readers)
    requires AllBelow(nodes, root)
    ensures BlocksFrom(ParseBlocks(nodes, ctx, depth, readers).0, root, readers)
    decreases nodes, 4
  {
    hide VisitNodes, FlushInlineRun, BlockFrom, LiesBelow;
    var start := Progress([], [], ctx);
    VisitNodesFrom(nodes, start, depth, root, readers);
    FlushFrom(VisitNodes(nodes, start, depth, readers), depth, root, readers);
  }

  lemma {:induction false} VisitNodesFrom(nodes: seq<Node>, p: Progress, depth: nat, root: seq<Node>, readers: Readers)
    requires AllBelow(nodes, root) && ProgressFrom(p, root, readers)
    ensures ProgressFrom(VisitNodes(nodes, p, depth, readers), root, readers)
    decreases nodes, 3
  {
    hide VisitNode, BlocksFrom, LiesBelow;
    if nodes != [] {
      var (entered, c) := Enter(p.ctx, depth);
      if entered {
        VisitNodeFrom(nodes[0], p.(ctx := c), depth, root, readers);
        VisitNodesFrom(nodes[1..], VisitNode(nodes[0], p.(ctx := c), depth, readers), depth, root, readers);
      } else {
        VisitNodesFrom(nodes[1..], p.(ctx := c), depth, root, readers);
      }
    }
  }

  lemma {:induction false} VisitNodeFrom(node: Node, p: Progress, depth: nat, root: seq<Node>, readers: Readers)
    requires LiesBelow(node, root) && ProgressFrom(p, root, readers)
    ensures ProgressFrom(VisitNode(node, p, depth, readers), root, readers)
    decreases node, 2
  {
    hide FlushInlineRun, ElementBlocks, PushBlocks, BlocksFrom, LiesBelow;
    if node.Element? && !IsDropped(node.name) && (IsBlockElement(node.name) || ContainsBlockChild(node)) {
      var flushed := FlushInlineRun(p, depth, readers);
      FlushFrom(p, depth, root, readers);
      ElementBlocksFrom(node, flushed.ctx, depth, root, readers);
      var (blocks, c) := ElementBlocks(node, flushed.ctx, depth, readers);
      PushBlocksFrom(blocks, flushed.(ctx := c), root, readers);
    }
  }

  lemma {:induction false} ElementBlocksFrom(node: Node, ctx: Context, depth: nat, root: seq<Node>, readers: Readers)
    requires node.Element? && LiesBelow(node, root)
    ensures BlocksFrom(ElementBlocks(node, ctx, depth, readers).0, root, readers)
    decreases node, 1
  {
    hide ParseInline, CollectText, ParseItems, ParseBlocks, ParseTableElement, Origin, LiesBelow;
    var name := node.name;
    ChildrenBelow(node, root);
    if name.Ul? || name.Ol? {
      ItemsFrom(node.children, ctx, depth + 1, root, readers);
    } else if name.Table? {
      ParseTableFrom(node, ctx, depth + 1, root, readers);
    } else if ContainsBlockChild(node) && !name.Heading? && !name.Blockquote? && !name.Footer? {
      ParseBlocksFrom(node.children, ctx, depth + 1, root, readers);
    } else {
      OriginOf(node.children, ctx, depth + 1, root, readers);
    }
  }

  lemma {:induction false} ParseTableFrom(table: Node, ctx: Context, depth: nat, root: seq<Node>, readers: Readers)
    requires table.Element? && LiesBelow(table, root)
    ensures BlocksFrom(ParseTableElement(table, ctx, depth, readers).0, root, readers)
    decreases table, 0
  {
    hide ContainsNestedTable, FlattenLayoutTable, ParseRows, ParseInline, BuildTable, RemoveEmptyUnspannedColumns,
         DirectTableRows, BlockFrom, RowsFrom, Origin, LiesBelow;
    var rows := DirectTableRows(table.children, true);
    var (nested, c1) := ContainsNestedTable(table.children, ctx, depth + 1);
    ChildrenBelow(table, root);
    LayoutFrom(table.children, c1, depth + 1, root, readers);
    if !table.attrs.presentation && !nested {
      var (parsed, c2) := ParseRows(rows, c1, depth + 1, readers);
      RowsBelow(table.children, true, root);
      ParseRowsFrom(rows, c1, depth + 1, root, readers);
      KeptColumnsFrom(parsed, root, readers);
      LayoutFrom(table.children, c2, depth + 1, root, readers);
      var caption := ParseCaption(table.children, c2, depth + 1, readers).0;
      if FindCaption(table.children).Some? {
        ChildrenBelow(FindCaption(table.children).value, root);
        OriginOf(FindCaption(table.children).value.children, c2, depth + 1, root, readers);
      }
      if parsed != [] {
        BuildTableFrom(RemoveEmptyUnspannedColumns(parsed), caption, root, readers);
      }
    }
  }

  lemma {:induction false} LayoutFrom(children: seq<Node>, ctx: Context, depth: nat, root: seq<Node>, readers: Readers)
    requires AllBelow(children, root)
    ensures BlocksFrom(FlattenLayoutTable(children, ctx, depth, readers).0, root, readers)
    decreases children, 6
  {
    hide BlocksFrom, LiesBelow;
    if DirectTableRows(children, true) == [] {
      LayoutCellFrom(children, ctx, depth, root, readers);
    } else {
      LayoutRowsFrom(children, true, ctx, depth, root, readers);
    }
  }

  lemma {:induction false} LayoutRowsFrom(
    children: seq<Node>, groups: bool, ctx: Context, depth: nat, root: seq<Node>, readers: Readers)
    requires AllBelow(children, root)
    ensures BlocksFrom(FlattenRows(children, groups, ctx, depth, readers).0, root, readers)
    decreases children, 5
  {
    hide BlockFrom, FlattenCells, LiesBelow;
    if children != [] {
      var first := children[0];
      var c1 := ctx;
      if first.Element? {
        ChildrenBelow(first, root);
      }
      if first.Element? && first.name.Tr? {
        c1 := FlattenCells(first.children, ctx, depth, readers).1;
        LayoutCellsFrom(first.children, ctx, depth, root, readers);
      } else if groups && IsRowGroup(first) {
        c1 := FlattenRows(first.children, false, ctx, depth, readers).1;
        LayoutRowsFrom(first.children, false, ctx, depth, root, readers);
      }
      LayoutRowsFrom(children[1..], groups, c1, depth, root, readers);
    }
  }

  lemma {:induction false} LayoutCellsFrom(
    children: seq<Node>, ctx: Context, depth: nat, root: seq<Node>, readers: Readers)
    requires AllBelow(children, root)
    ensures BlocksFrom(FlattenCells(children, ctx, depth, readers).0, root, readers)
    decreases children, 5
  {
    hide BlockFrom, FlattenCell, LiesBelow;
    if children != [] {
      var c1 := ctx;
      if IsCell(children[0]) {
        c1 := FlattenCell(children[0].children, ctx, depth, readers).1;
        ChildrenBelow(children[0], root);
        LayoutCellFrom(children[0].children, ctx, depth, root, readers);
      }
      LayoutCellsFrom(children[1..], c1, depth, root, readers);
    }
  }

  lemma {:induction false} LayoutCellFrom(
    content: seq<Node>, ctx: Context, depth: nat, root: seq<Node>, readers: Readers)
    requires AllBelow(content, root)
    ensures BlocksFrom(FlattenCell(content, ctx, depth, readers).0, root, readers)
    decreases content, 5
  {
    hide ParseBlocks, ParseInline, Origin, LiesBelow;
    var c1 := ParseBlocks(content, ctx, depth + 1, readers).1;
    ParseBlocksFrom(content, ctx, depth + 1, root, readers);
    OriginOf(content, c1, depth + 1, root, readers);
  }

  // ---- The document ---------------------------------------------------------------------------------------

  lemma {:induction false} ContentsOfRow(row: seq<Cell>, c: Inline)
    requires c in CellContents(row)
    ensures exists cell :: cell in row && cell.content == c
  {
    var i :| 0 <= i < |row| && CellContents(row)[i] == c;
    assert row[i] in row;
  }

  lemma {:induction false} TableContentsFrom(rows: seq<seq<Cell>>, root: seq<Node>, readers: Readers)
    requires RowsFrom(rows, root, readers)
    ensures forall c | c in TableContents(rows) :: Origin(c, root, readers)
  {
    hide Origin;
    if rows != [] {
      assert RowFrom(rows[0], root, readers);
      forall c | c in CellContents(rows[0]) ensures Origin(c, root, readers) { ContentsOfRow(rows[0], c); }
      TableContentsFrom(rows[1..], root, readers);
    }
  }

  /** However much of a document was cut: every content of its blocks is the notice or was parsed from the tree. */
  lemma DocumentFrom(
    children: seq<Node>, sourceTruncated: bool, domTruncated: bool, notice: string, readers: Readers)
    ensures var (parsed, ctx) := ParseBlocks(children, FreshContext(sourceTruncated, domTruncated), 0, readers);
            forall b, c | b in DocumentBlocks(parsed, ctx, notice) && c in Contents(b) ::
              c == PlainText(notice) || Origin(c, children, readers)
  {
    hide ParseBlocks, Origin, PlainText;
    var start := FreshContext(sourceTruncated, domTruncated);
    var (parsed, ctx) := ParseBlocks(children, start, 0, readers);
    RootBelow(children);
    ParseBlocksFrom(children, start, 0, children, readers);
    forall b, c | b in DocumentBlocks(parsed, ctx, notice) && c in Contents(b)
      ensures c == PlainText(notice) || Origin(c, children, readers)
    {
      if b != ParagraphBlock(PlainText(notice)) {
        assert BlockFrom(b, children, readers);
        if b.TableBlock? {
          TableContentsFrom(b.table.rows, children, readers);
        }
      }
    }
  }
}
