/**
 * What holds of the block model of every DOM tree: all inline content in it
 * is sound, at most 600 blocks are kept, and as long as no limit is reported
 * the bounded parser built exactly the model a parser without limits builds.
 */
module HtmlBlockLaws {
  import opened HtmlTokens
  import opened HtmlLinks
  import opened HtmlDom
  import opened HtmlInline
  import opened HtmlBudget
  import opened HtmlBlocks
  import Layout = TableLayout

  ghost predicate CellsSound(row: seq<Cell>) {
    forall cell | cell in row :: Sound(cell.content)
  }

  ghost predicate RowsSound(rows: seq<seq<Cell>>) {
    forall row | row in rows :: CellsSound(row)
  }

  ghost predicate BlockSound(b: Block) {
    match b
    case ParagraphBlock(content) => Sound(content)
    case HeadingBlock(_, content) => Sound(content)
    case PreBlock(_) => true
    case ListBlock(_, _, items) => AllSound(items)
    case QuoteBlock(content) => Sound(content)
    case DividerBlock => true
    case FooterBlock(content) => Sound(content)
    case TableBlock(table) => RowsSound(table.rows) && (table.caption.Some? ==> Sound(table.caption.value))
  }

  ghost predicate BlocksSound(blocks: seq<Block>) {
    forall b | b in blocks :: BlockSound(b)
  }

  lemma InlineLaw(nodes: seq<Node>, ctx: Context, depth: nat, readers: Readers)
    requires ctx.bounded
    ensures var (r, c) := ParseInline(nodes, ctx, depth, true, true, readers);
            Sound(r) && Agrees(ctx, c, r, ParseInline(nodes, ctx.Unbounded(), depth, true, true, readers))
  {
    ParseInlineSound(nodes, ctx, depth, true, true, readers);
    ParseInlineAgrees(nodes, ctx, depth, true, true, readers);
  }

  // ---- Tables -----------------------------------------------------------------------

  lemma {:induction false} AllStrongAgrees(pending: seq<Pending>, visible: bool, ctx: Context, readers: Readers)
    requires ctx.bounded
    ensures var (r, c) := AllStrong(pending, visible, ctx, readers);
            Agrees(ctx, c, r, AllStrong(pending, visible, ctx.Unbounded(), readers))
    decreases PendingSize(pending), |pending|
  {
    hide IsBlank, IsDropped, ResolveStrong, NodesSize;
    if pending != [] {
      var current, rest := pending[|pending| - 1], pending[..|pending| - 1];
      var (entered, c) := Enter(ctx, current.depth);
      EnterAgrees(ctx, current.depth);
      if entered {
        if current.node.Text? {
          AllStrongAgrees(rest, visible || !IsBlank(current.node.data), c, readers);
        } else if current.node.NonContent? || IsDropped(current.node.name) {
          AllStrongAgrees(rest, visible, c, readers);
        } else {
          var strong := ResolveStrong(current.strong, current.node, readers);
          var pushed := PushChildren(current.node.children, current.depth + 1, strong);
          PendingSizeConcat(rest, pushed);
          PushedSize(current.node.children, current.depth + 1, strong);
          AllStrongAgrees(rest + pushed, visible, c, readers);
        }
      }
    }
  }

  lemma {:induction false} NestedTableAgrees(children: seq<Node>, ctx: Context, depth: nat)
    requires ctx.bounded
    ensures var (r, c) := ContainsNestedTable(children, ctx, depth);
            Agrees(ctx, c, r, ContainsNestedTable(children, ctx.Unbounded(), depth))
    decreases children
  {
    if children != [] {
      var (entered, c1) := Enter(ctx, depth);
      EnterAgrees(ctx, depth);
      if entered && children[0].Element? && !children[0].name.Table? {
        var c2 := ContainsNestedTable(children[0].children, c1, depth + 1).1;
        NestedTableAgrees(children[0].children, c1, depth + 1);
        NestedTableAgrees(children[1..], c2, depth);
      } else {
        NestedTableAgrees(children[1..], c1, depth);
      }
    }
  }

  lemma ParseCellLaw(cell: Node, ctx: Context, depth: nat, readers: Readers)
    requires ctx.bounded && cell.Element?
    ensures var (r, c) := ParseCell(cell, ctx, depth, readers);
            Sound(r.content) && Agrees(ctx, c, r, ParseCell(cell, ctx.Unbounded(), depth, readers))
  {
    InlineLaw(cell.children, ctx, depth + 1, readers);
    var c1 := ParseInline(cell.children, ctx, depth + 1, true, true, readers).1;
    if !cell.name.Th? {
      AllStrongAgrees(PushChildren(cell.children, depth + 1, ResolveStrong(false, cell, readers)), false, c1, readers);
    }
  }

  lemma {:induction false} ParseCellsLaw(children: seq<Node>, ctx: Context, depth: nat, readers: Readers)
    requires ctx.bounded
    ensures var (r, c) := ParseCells(children, ctx, depth, readers);
            CellsSound(r) && Agrees(ctx, c, r, ParseCells(children, ctx.Unbounded(), depth, readers))
  {
    hide ParseCell, Sound;
    if children != [] {
      if IsCell(children[0]) {
        ParseCellLaw(children[0], ctx, depth, readers);
        ParseCellsLaw(children[1..], ParseCell(children[0], ctx, depth, readers).1, depth, readers);
      } else {
        ParseCellsLaw(children[1..], ctx, depth, readers);
      }
    }
  }

  lemma {:induction false} ParseRowsLaw(rows: seq<Node>, ctx: Context, depth: nat, readers: Readers)
    requires ctx.bounded
    requires forall r | r in rows :: r.Element?
    ensures var (r, c) := ParseRows(rows, ctx, depth, readers);
            RowsSound(r) && Agrees(ctx, c, r, ParseRows(rows, ctx.Unbounded(), depth, readers))
  {
    if rows != [] {
      ParseCellsLaw(rows[0].children, ctx, depth, readers);
      ParseRowsLaw(rows[1..], ParseCells(rows[0].children, ctx, depth, readers).1, depth, readers);
    }
  }

  lemma ParseCaptionLaw(children: seq<Node>, ctx: Context, depth: nat, readers: Readers)
    requires ctx.bounded
    ensures var (r, c) := ParseCaption(children, ctx, depth, readers);
            (r.Some? ==> Sound(r.value)) && Agrees(ctx, c, r, ParseCaption(children, ctx.Unbounded(), depth, readers))
  {
    var caption := FindCaption(children);
    if caption.Some? {
      InlineLaw(caption.value.children, ctx, depth, readers);
    }
  }

  lemma KeptColumnsSound(rows: seq<seq<Cell>>)
    requires RowsSound(rows)
    ensures RowsSound(RemoveEmptyUnspannedColumns(rows))
  {
    PlainTextSound("");
    if !IsSpanned(rows) {
      var kept := RemoveEmptyUnspannedColumns(rows);
      forall i | 0 <= i < |kept| ensures CellsSound(kept[i]) {
        forall j | 0 <= j < |kept[i]| ensures Sound(kept[i][j].content) {
          var index := KeptColumns(rows, 0)[j];
          assert kept[i][j] == CellAt(rows[i], index);
          assert CellsSound(rows[i]);
        }
      }
    }
  }

  lemma MarkHeadersSound(row: seq<Cell>, every: nat)
    requires CellsSound(row) && every > 0
    ensures CellsSound(MarkHeaders(row, every))
  {
    forall i | 0 <= i < |row| ensures Sound(MarkHeaders(row, every)[i].content) { assert row[i] in row; }
  }

  lemma BuildTableSound(rows: seq<seq<Cell>>, caption: Option<Inline>, readers: Readers)
    requires RowsSound(rows) && rows != [] && (caption.Some? ==> Sound(caption.value))
    ensures BlockSound(TableBlock(BuildTable(rows, caption, readers)))
  {
    MarkHeadersSound(rows[0], 1);
    var headed := if IsHeaderRow(rows[0], rows[1..]) then [MarkHeaders(rows[0], 1)] + rows[1..] else rows;
    assert RowsSound(headed);
    forall i | 0 <= i < |headed| ensures CellsSound(MarkKeys(headed)[i]) { MarkHeadersSound(headed[i], 2); }
  }

  // ---- Blocks -----------------------------------------------------------------------

  // The unbounded form of a progress.
  function Free(p: Progress): Progress {
    p.(ctx := p.ctx.Unbounded())
  }

  // Sound blocks, within the limit.
  ghost predicate Good(p: Progress) {
    p.ctx.bounded && BlocksSound(p.blocks) && |p.blocks| <= MAX_MODEL_BLOCKS
  }

  // A step over siblings: sound blocks within the limit, and the unbounded step when no limit is reported.
  ghost predicate Advances(before: Progress, after: Progress, unbounded: Progress) {
    && Good(after)
    && after.ctx.sourceTruncated == before.ctx.sourceTruncated && after.ctx.domTruncated == before.ctx.domTruncated
    && (before.ctx.LimitHit() ==> after.ctx.LimitHit())
    && (!after.ctx.LimitHit() ==> unbounded == Free(after))
  }

  lemma {:induction false} PushBlocksAdvances(blocks: seq<Block>, p: Progress)
    requires Good(p) && BlocksSound(blocks)
    ensures Advances(p, PushBlocks(blocks, p), PushBlocks(blocks, Free(p)))
    decreases |blocks|
  {
    if blocks != [] {
      assert BlockSound(blocks[0]);
      PushBlocksAdvances(blocks[1..], PushBlock(blocks[0], p));
    }
  }

  lemma FlushAdvances(p: Progress, depth: nat, readers: Readers)
    requires Good(p)
    ensures Advances(p, FlushInlineRun(p, depth, readers), FlushInlineRun(Free(p), depth, readers))
  {
    hide ParseInline, Sound;
    if p.run != [] {
      InlineLaw(p.run, p.ctx, depth + 1, readers);
    }
  }

  // What a recursive parser returns: sound blocks, and agreement with its unbounded form.
  ghost predicate Parsed(ctx: Context, result: (seq<Block>, Context), unbounded: (seq<Block>, Context)) {
    BlocksSound(result.0) && Agrees(ctx, result.1, result.0, unbounded)
  }

  lemma {:induction false} ParseBlocksLaw(nodes: seq<Node>, ctx: Context, depth: nat, readers: Readers)
    requires ctx.bounded
    ensures Parsed(ctx, ParseBlocks(nodes, ctx, depth, readers), ParseBlocks(nodes, ctx.Unbounded(), depth, readers))
    ensures |ParseBlocks(nodes, ctx, depth, readers).0| <= 600
    decreases nodes, 4
  {
    var start := Progress([], [], ctx);
    VisitNodesLaw(nodes, start, depth, readers);
    FlushAdvances(VisitNodes(nodes, start, depth, readers), depth, readers);
  }

  lemma {:induction false} VisitNodesLaw(nodes: seq<Node>, p: Progress, depth: nat, readers: Readers)
    requires Good(p)
    ensures Advances(p, VisitNodes(nodes, p, depth, readers), VisitNodes(nodes, Free(p), depth, readers))
    decreases nodes, 3
  {
    if nodes != [] {
      var (entered, c) := Enter(p.ctx, depth);
      EnterAgrees(p.ctx, depth);
      if entered {
        var next := VisitNode(nodes[0], p.(ctx := c), depth, readers);
        VisitNodeLaw(nodes[0], p.(ctx := c), depth, readers);
        VisitNodesLaw(nodes[1..], next, depth, readers);
      } else {
        VisitNodesLaw(nodes[1..], p.(ctx := c), depth, readers);
      }
    }
  }

  lemma {:induction false} VisitNodeLaw(node: Node, p: Progress, depth: nat, readers: Readers)
    requires Good(p)
    ensures Advances(p, VisitNode(node, p, depth, readers), VisitNode(node, Free(p), depth, readers))
    decreases node, 2
  {
    hide FlushInlineRun, ElementBlocks, PushBlocks;
    if node.Element? && !IsDropped(node.name) && (IsBlockElement(node.name) || ContainsBlockChild(node)) {
      var flushed := FlushInlineRun(p, depth, readers);
      FlushAdvances(p, depth, readers);
      ElementBlocksLaw(node, flushed.ctx, depth, readers);
      var (blocks, c) := ElementBlocks(node, flushed.ctx, depth, readers);
      PushBlocksAdvances(blocks, flushed.(ctx := c));
    }
  }

  lemma {:induction false} ParseItemsLaw(children: seq<Node>, ctx: Context, depth: nat, readers: Readers)
    requires ctx.bounded
    ensures var (r, c) := ParseItems(children, ctx, depth, readers);
            AllSound(r) && Agrees(ctx, c, r, ParseItems(children, ctx.Unbounded(), depth, readers))
  {
    hide ParseInline, Sound;
    if children != [] {
      if children[0].Element? && children[0].name.Li? {
        InlineLaw(children[0].children, ctx, depth, readers);
        ParseItemsLaw(children[1..], ParseInline(children[0].children, ctx, depth, true, true, readers).1, depth,
                      readers);
      } else {
        ParseItemsLaw(children[1..], ctx, depth, readers);
      }
    }
  }

  lemma {:induction false} ElementBlocksLaw(node: Node, ctx: Context, depth: nat, readers: Readers)
    requires ctx.bounded && node.Element?
    ensures Parsed(ctx, ElementBlocks(node, ctx, depth, readers), ElementBlocks(node, ctx.Unbounded(), depth, readers))
    decreases node, 1
  {
    hide ParseInline, CollectText, ParseItems, ParseBlocks, ParseTableElement, Sound;
    var name := node.name;
    if name.Pre? {
      CollectTextAgrees(node.children, ctx, depth + 1, true);
    } else if name.Hr? {
    } else if name.Ul? || name.Ol? {
      ParseItemsLaw(node.children, ctx, depth + 1, readers);
    } else if name.Table? {
      ParseTableLaw(node, ctx, depth + 1, readers);
    } else if ContainsBlockChild(node) && !name.Heading? && !name.Blockquote? && !name.Footer? {
      ParseBlocksLaw(node.children, ctx, depth + 1, readers);
    } else {
      InlineLaw(node.children, ctx, depth + 1, readers);
    }
  }

  lemma {:induction false} ParseTableLaw(table: Node, ctx: Context, depth: nat, readers: Readers)
    requires ctx.bounded && table.Element?
    ensures Parsed(ctx, ParseTableElement(table, ctx, depth, readers),
                   ParseTableElement(table, ctx.Unbounded(), depth, readers))
    decreases table, 0
  {
    hide ContainsNestedTable, FlattenLayoutTable, ParseRows, ParseCaption, BuildTable, RemoveEmptyUnspannedColumns,
         DirectTableRows;
    var rows := DirectTableRows(table.children, true);
    var (nested, c1) := ContainsNestedTable(table.children, ctx, depth + 1);
    NestedTableAgrees(table.children, ctx, depth + 1);
    FlattenLaw(table.children, c1, depth + 1, readers);
    if !table.attrs.presentation && !nested {
      var (parsed, c2) := ParseRows(rows, c1, depth + 1, readers);
      ParseRowsLaw(rows, c1, depth + 1, readers);
      KeptColumnsSound(parsed);
      FlattenLaw(table.children, c2, depth + 1, readers);
      var (caption, c3) := ParseCaption(table.children, c2, depth + 1, readers);
      ParseCaptionLaw(table.children, c2, depth + 1, readers);
      if parsed != [] {
        BuildTableSound(RemoveEmptyUnspannedColumns(parsed), caption, readers);
      }
    }
  }

  lemma {:induction false} FlattenLaw(children: seq<Node>, ctx: Context, depth: nat, readers: Readers)
    requires ctx.bounded
    ensures Parsed(ctx, FlattenLayoutTable(children, ctx, depth, readers),
                   FlattenLayoutTable(children, ctx.Unbounded(), depth, readers))
    decreases children, 6
  {
    if DirectTableRows(children, true) == [] {
      FlattenCellLaw(children, ctx, depth, readers);
    } else {
      FlattenRowsLaw(children, true, ctx, depth, readers);
    }
  }

  lemma {:induction false} FlattenRowsLaw(children: seq<Node>, groups: bool, ctx: Context, depth: nat, readers: Readers)
    requires ctx.bounded
    ensures Parsed(ctx, FlattenRows(children, groups, ctx, depth, readers),
                   FlattenRows(children, groups, ctx.Unbounded(), depth, readers))
    decreases children, 5
  {
    if children != [] {
      var first := children[0];
      var c1 := ctx;
      if first.Element? && first.name.Tr? {
        c1 := FlattenCells(first.children, ctx, depth, readers).1;
        FlattenCellsLaw(first.children, ctx, depth, readers);
      } else if groups && IsRowGroup(first) {
        c1 := FlattenRows(first.children, false, ctx, depth, readers).1;
        FlattenRowsLaw(first.children, false, ctx, depth, readers);
      }
      FlattenRowsLaw(children[1..], groups, c1, depth, readers);
    }
  }

  lemma {:induction false} FlattenCellsLaw(children: seq<Node>, ctx: Context, depth: nat, readers: Readers)
    requires ctx.bounded
    ensures Parsed(ctx, FlattenCells(children, ctx, depth, readers),
                   FlattenCells(children, ctx.Unbounded(), depth, readers))
    decreases children, 5
  {
    if children != [] {
      var c1 := ctx;
      if IsCell(children[0]) {
        c1 := FlattenCell(children[0].children, ctx, depth, readers).1;
        FlattenCellLaw(children[0].children, ctx, depth, readers);
      }
      FlattenCellsLaw(children[1..], c1, depth, readers);
    }
  }

  lemma {:induction false} FlattenCellLaw(content: seq<Node>, ctx: Context, depth: nat, readers: Readers)
    requires ctx.bounded
    ensures Parsed(ctx, FlattenCell(content, ctx, depth, readers),
                   FlattenCell(content, ctx.Unbounded(), depth, readers))
    decreases content, 5
  {
    hide ParseBlocks, ParseInline, Sound;
    ParseBlocksLaw(content, ctx, depth + 1, readers);
    var c1 := ParseBlocks(content, ctx, depth + 1, readers).1;
    InlineLaw(content, c1, depth + 1, readers);
  }
}
