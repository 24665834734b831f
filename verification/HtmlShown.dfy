/**
 * Without limits, the block parser shows exactly the runs of the tree, in
 * order: no run is lost, none is added, and each is parsed as it stands.
 */
module HtmlShown {
  import opened HtmlTokens
  import opened HtmlNormalize
  import opened HtmlLinks
  import opened HtmlDom
  import opened HtmlInline
  import opened HtmlBlocks
  import opened HtmlRender
  import opened HtmlRenderLaws
  import opened HtmlInk
  import opened HtmlRuns
  import Layout = TableLayout

  // ---- Pieces: what is shown of a list of blocks ------------------------------------------

  datatype Piece = Content(content: Inline) | Bare(text: string) | Divider

  // The contents with some text.
  function Filled(items: seq<Inline>): seq<Piece> {
    if items == [] then [] else (if items[0].text == [] then [] else [Content(items[0])]) + Filled(items[1..])
  }

  function BlockPieces(b: Block): seq<Piece> {
    match b
    case PreBlock(text) => [Bare(text)]
    case DividerBlock => [Divider]
    case _ => Filled(Contents(b))
  }

  function BlocksPieces(blocks: seq<Block>): seq<Piece> {
    if blocks == [] then [] else BlockPieces(blocks[0]) + BlocksPieces(blocks[1..])
  }

  // A run of nodes as inline content of its own.
  function InlineOf(nodes: seq<Node>, readers: Readers): Inline {
    ParseInline(nodes, FREE, 0, true, true, readers).0
  }

  // The text of a preformatted block.
  function PreText(nodes: seq<Node>): string {
    TextOf(TrimEnd(TextTokens(CollectText(nodes, FREE, 0, true).0)))
  }

  function RunPieces(run: Run, readers: Readers): seq<Piece> {
    match run
    case Inlined(nodes) => Filled([InlineOf(nodes, readers)])
    case Verbatim(nodes) => if PreText(nodes) == [] then [] else [Bare(PreText(nodes))]
    case Rule => [Divider]
  }

  function RunsPieces(runs: seq<Run>, readers: Readers): seq<Piece> {
    if runs == [] then [] else RunPieces(runs[0], readers) + RunsPieces(runs[1..], readers)
  }

  /** The blocks show exactly what the runs show, and every block shows something. */
  ghost predicate Shown(blocks: seq<Block>, runs: seq<Run>, readers: Readers) {
    BlocksPieces(blocks) == RunsPieces(runs, readers) && forall b | b in blocks :: BlockPieces(b) != []
  }

  lemma {:induction false} FilledConcat(a: seq<Inline>, b: seq<Inline>)
    ensures Filled(a + b) == Filled(a) + Filled(b)
  {
    if a == [] {
      assert a + b == b;
    } else {
      assert (a + b)[0] == a[0] && (a + b)[1..] == a[1..] + b;
      FilledConcat(a[1..], b);
    }
  }

  lemma {:induction false} BlocksPiecesConcat(a: seq<Block>, b: seq<Block>)
    ensures BlocksPieces(a + b) == BlocksPieces(a) + BlocksPieces(b)
  {
    hide BlockPieces;
    if a == [] {
      assert a + b == b;
    } else {
      assert (a + b)[0] == a[0] && (a + b)[1..] == a[1..] + b;
      BlocksPiecesConcat(a[1..], b);
    }
  }

  lemma {:induction false} RunsPiecesConcat(a: seq<Run>, b: seq<Run>, readers: Readers)
    ensures RunsPieces(a + b, readers) == RunsPieces(a, readers) + RunsPieces(b, readers)
  {
    hide RunPieces;
    if a == [] {
      assert a + b == b;
    } else {
      assert (a + b)[0] == a[0] && (a + b)[1..] == a[1..] + b;
      RunsPiecesConcat(a[1..], b, readers);
    }
  }

  lemma ShownBoth(a: seq<Block>, x: seq<Run>, b: seq<Block>, y: seq<Run>, readers: Readers)
    requires Shown(a, x, readers) && Shown(b, y, readers)
    ensures Shown(a + b, x + y, readers)
  {
    BlocksPiecesConcat(a, b);
    RunsPiecesConcat(x, y, readers);
  }

  lemma ShownNothing(readers: Readers)
    ensures Shown([], [], readers)
  {
  }

  // One block that shows what the runs show.
  lemma ShownOne(b: Block, runs: seq<Run>, readers: Readers)
    requires BlockPieces(b) == RunsPieces(runs, readers) != []
    ensures Shown([b], runs, readers)
  {
    assert [b][1..] == [];
    assert BlockPieces(b) + [] == BlockPieces(b);
  }

  lemma OneRun(run: Run, readers: Readers)
    ensures RunsPieces([run], readers) == RunPieces(run, readers)
  {
    assert [run][1..] == [];
    assert RunPieces(run, readers) + [] == RunPieces(run, readers);
  }

  // ---- Inline content and preformatted text ---------------------------------------------------

  lemma InlineOfAnywhere(nodes: seq<Node>, ctx: Context, depth: nat, readers: Readers)
    requires !ctx.bounded
    ensures ParseInline(nodes, ctx, depth, true, true, readers).0 == InlineOf(nodes, readers)
  {
    ParseInlineAnywhere(nodes, ctx, depth, FREE, 0, true, true, readers);
  }

  lemma FilledOne(c: Inline)
    ensures Filled([c]) == if c.text == [] then [] else [Content(c)]
  {
    assert [c][1..] == [];
  }

  // A block of one run, made only if the run has text.
  lemma ShownContent(b: Block, nodes: seq<Node>, readers: Readers)
    requires Contents(b) == [InlineOf(nodes, readers)] && !b.PreBlock? && !b.DividerBlock?
    ensures Shown(if InlineOf(nodes, readers).text == [] then [] else [b], [Inlined(nodes)], readers)
  {
    hide InlineOf;
    OneRun(Inlined(nodes), readers);
    FilledOne(InlineOf(nodes, readers));
    if InlineOf(nodes, readers).text != [] {
      ShownOne(b, [Inlined(nodes)], readers);
    }
  }

  /** The blocks after a step are those before it and some that show the runs. */
  ghost predicate Adds(before: seq<Block>, after: seq<Block>, runs: seq<Run>, readers: Readers) {
    before <= after && Shown(after[|before|..], runs, readers)
  }

  lemma AddsThenAdds(a: seq<Block>, b: seq<Block>, c: seq<Block>, x: seq<Run>, y: seq<Run>, readers: Readers)
    requires Adds(a, b, x, readers) && Adds(b, c, y, readers)
    ensures Adds(a, c, x + y, readers)
  {
    hide Shown;
    ShownBoth(b[|a|..], x, c[|b|..], y, readers);
    assert c[|a|..] == b[|a|..] + c[|b|..];
  }

  lemma AddsBlocks(before: seq<Block>, blocks: seq<Block>, runs: seq<Run>, readers: Readers)
    requires Shown(blocks, runs, readers)
    ensures Adds(before, before + blocks, runs, readers)
  {
    assert (before + blocks)[|before|..] == blocks;
  }

  lemma FlushShown(p: Progress, depth: nat, readers: Readers)
    requires !p.ctx.bounded
    ensures var f := FlushInlineRun(p, depth, readers);
            f.run == [] && Adds(p.blocks, f.blocks, PendingRun(p.run), readers)
  {
    hide InlineOf, ParseInline, Shown;
    if p.run == [] {
      ShownNothing(readers);
      AddsBlocks(p.blocks, [], [], readers);
      assert p.blocks + [] == p.blocks;
    } else {
      var content := InlineOf(p.run, readers);
      InlineOfAnywhere(p.run, p.ctx, depth + 1, readers);
      ShownContent(ParagraphBlock(content), p.run, readers);
      AddsBlocks(p.blocks, if content.text == [] then [] else [ParagraphBlock(content)], [Inlined(p.run)], readers);
      assert p.blocks + [] == p.blocks;
    }
  }

  lemma PreShown(children: seq<Node>, ctx: Context, depth: nat, readers: Readers)
    requires !ctx.bounded
    ensures var text := TextOf(TrimEnd(TextTokens(CollectText(children, ctx, depth, true).0)));
            Shown(if text == [] then [] else [PreBlock(text)], [Verbatim(children)], readers)
  {
    hide CollectText;
    CollectTextAnywhere(children, ctx, depth, FREE, 0, true);
    OneRun(Verbatim(children), readers);
    if PreText(children) != [] {
      ShownOne(PreBlock(PreText(children)), [Verbatim(children)], readers);
    }
  }

  lemma {:induction false} ItemsShown(children: seq<Node>, ctx: Context, depth: nat, readers: Readers)
    requires !ctx.bounded
    ensures Filled(ParseItems(children, ctx, depth, readers).0) == RunsPieces(ItemRuns(children), readers)
    ensures ParseItems(children, ctx, depth, readers).0 != []
            ==> Filled(ParseItems(children, ctx, depth, readers).0) != []
  {
    hide ParseInline, InlineOf;
    if children != [] {
      ItemsShown(children[1..], ctx, depth, readers);
      var rest := ParseItems(children[1..], ctx, depth, readers).0;
      if children[0].Element? && children[0].name.Li? {
        var item := InlineOf(children[0].children, readers);
        InlineOfAnywhere(children[0].children, ctx, depth, readers);
        OneRun(Inlined(children[0].children), readers);
        RunsPiecesConcat([Inlined(children[0].children)], ItemRuns(children[1..]), readers);
        FilledConcat([item], rest);
      } else {
        assert [] + ItemRuns(children[1..]) == ItemRuns(children[1..]);
      }
    }
  }

  // ---- Data tables ------------------------------------------------------------------------------

  /** The parsed cells stand for the given elements: same places, same spans, same contents. */
  ghost predicate CellsOfNodes(row: seq<Cell>, nodes: seq<Node>, readers: Readers) {
    |row| == |nodes| &&
    forall i | 0 <= i < |row| :: nodes[i].Element? && CellOfNode(row[i], nodes[i], readers)
  }

  ghost predicate CellOfNode(cell: Cell, node: Node, readers: Readers)
    requires node.Element?
  {
    && cell.content == InlineOf(node.children, readers)
    && (cell.content.text != [] <==> HasInk(node, readers))
    && Layout.Spans(cell.colspan, cell.rowspan) == SpansOfNode(node, readers)
  }

  ghost predicate RowsOfNodes(rows: seq<seq<Cell>>, nodes: seq<seq<Node>>, readers: Readers) {
    |rows| == |nodes| && forall i | 0 <= i < |rows| :: CellsOfNodes(rows[i], nodes[i], readers)
  }

  lemma ParseCellShown(node: Node, ctx: Context, depth: nat, readers: Readers)
    requires !ctx.bounded && node.Element?
    ensures CellOfNode(ParseCell(node, ctx, depth, readers).0, node, readers)
  {
    hide ParseInline, InlineInk, IsEntireCellStrong;
    ParseInlineInk(node.children, ctx, depth + 1, true, true, readers);
    InlineOfAnywhere(node.children, ctx, depth + 1, readers);
  }

  lemma CellInPlaceFirst(cell: Cell, row: seq<Cell>, node: Node, nodes: seq<Node>, readers: Readers)
    requires node.Element? && CellOfNode(cell, node, readers) && CellsOfNodes(row, nodes, readers)
    ensures CellsOfNodes([cell] + row, [node] + nodes, readers)
  {
    hide CellOfNode;
  }

  lemma {:induction false} ParseCellsStand(children: seq<Node>, ctx: Context, depth: nat, readers: Readers)
    requires !ctx.bounded
    ensures CellsOfNodes(ParseCells(children, ctx, depth, readers).0, CellsOf(children), readers)
  {
    hide ParseCell, CellOfNode, CellsOfNodes;
    if children == [] {
      NoCellsStand(readers);
    } else {
      var rest := ParseCells(children[1..], ctx, depth, readers).0;
      ParseCellsStand(children[1..], ctx, depth, readers);
      if IsCell(children[0]) {
        ParseCellShown(children[0], ctx, depth, readers);
        CellInPlaceFirst(ParseCell(children[0], ctx, depth, readers).0, rest, children[0], CellsOf(children[1..]),
                         readers);
      } else {
        assert [] + CellsOf(children[1..]) == CellsOf(children[1..]);
      }
    }
  }

  lemma NoCellsStand(readers: Readers)
    ensures CellsOfNodes([], [], readers)
  {
  }

  lemma CellFills(cell: Cell, rest: seq<Cell>, node: Node, runs: seq<Run>, readers: Readers)
    requires node.Element? && CellOfNode(cell, node, readers)
    requires Filled(CellContents(rest)) == RunsPieces(runs, readers)
    ensures Filled(CellContents([cell] + rest)) == RunsPieces([Inlined(node.children)] + runs, readers)
  {
    hide InlineOf, HasInk, SpansOfNode, Filled, RunPieces;
    var run := Inlined(node.children);
    OneRun(run, readers);
    OnePieceRun(node.children, readers);
    RunsPiecesConcat([run], runs, readers);
    assert ([cell] + rest)[1..] == rest;
    FilledConcat([cell.content], CellContents(rest));
  }

  lemma OnePieceRun(nodes: seq<Node>, readers: Readers)
    ensures RunPieces(Inlined(nodes), readers) == Filled([InlineOf(nodes, readers)])
  {
  }

  lemma {:induction false} ParseCellsFill(children: seq<Node>, ctx: Context, depth: nat, readers: Readers)
    requires !ctx.bounded
    ensures Filled(CellContents(ParseCells(children, ctx, depth, readers).0)) == RunsPieces(CellRuns(children), readers)
  {
    hide ParseCell, CellOfNode, Filled, RunsPieces, CellContents;
    if children == [] {
      NoRowFilled(readers);
    } else {
      var rest := ParseCells(children[1..], ctx, depth, readers).0;
      ParseCellsFill(children[1..], ctx, depth, readers);
      if IsCell(children[0]) {
        ParseCellShown(children[0], ctx, depth, readers);
        CellFills(ParseCell(children[0], ctx, depth, readers).0, rest, children[0], CellRuns(children[1..]), readers);
      } else {
        assert [] + CellRuns(children[1..]) == CellRuns(children[1..]);
      }
    }
  }

  lemma NoRowFilled(readers: Readers)
    ensures Filled(CellContents([])) == RunsPieces([], readers)
  {
  }

  lemma ParseCellsShown(children: seq<Node>, ctx: Context, depth: nat, readers: Readers)
    requires !ctx.bounded
    ensures var row := ParseCells(children, ctx, depth, readers).0;
            CellsOfNodes(row, CellsOf(children), readers)
              && Filled(CellContents(row)) == RunsPieces(CellRuns(children), readers)
  {
    ParseCellsStand(children, ctx, depth, readers);
    ParseCellsFill(children, ctx, depth, readers);
  }

  lemma {:induction false} TextlessRow(row: seq<Cell>)
    ensures Filled(CellContents(row)) != [] <==> HasText(row)
  {
    if row != [] {
      assert row == [row[0]] + row[1..];
      TextlessRow(row[1..]);
    }
  }

  lemma RowTextAgrees(row: seq<Cell>, nodes: seq<Node>, readers: Readers)
    requires CellsOfNodes(row, nodes, readers)
    ensures HasText(row) <==> exists c | c in nodes :: HasInk(c, readers)
  {
    hide InlineOf, HasInk;
    if HasText(row) {
      var i :| 0 <= i < |row| && row[i].content.text != [];
      assert CellOfNode(row[i], nodes[i], readers) && HasInk(nodes[i], readers) && nodes[i] in nodes;
    }
    if exists c | c in nodes :: HasInk(c, readers) {
      var i :| 0 <= i < |nodes| && HasInk(nodes[i], readers);
      assert CellOfNode(row[i], nodes[i], readers) && row[i] in row;
    }
  }

  lemma NoRowsShown(readers: Readers)
    ensures Filled(TableContents([])) == RunsPieces(RowRuns([]), readers)
  {
  }

  /** The rows with text: their cells in place, and every one of them filled. */
  lemma {:induction false} ParseRowsShown(rows: seq<Node>, ctx: Context, depth: nat, readers: Readers)
    requires !ctx.bounded && forall r | r in rows :: r.Element?
    ensures var parsed := ParseRows(rows, ctx, depth, readers).0;
            && RowsOfNodes(parsed, TextRows(rows, readers), readers)
            && Filled(TableContents(parsed)) == RunsPieces(RowRuns(rows), readers)
            && (parsed != [] ==> Filled(TableContents(parsed)) != [])
  {
    hide ParseCells, CellsOfNodes, InlineOf, CellsOf, HasInk, HasText, Filled, RunsPieces, CellRuns;
    NoRowsShown(readers);
    if rows != [] {
      var first := ParseCells(rows[0].children, ctx, depth, readers).0;
      var rest := ParseRows(rows[1..], ctx, depth, readers).0;
      ParseCellsShown(rows[0].children, ctx, depth, readers);
      RowTextAgrees(first, CellsOf(rows[0].children), readers);
      ParseRowsShown(rows[1..], ctx, depth, readers);
      RunsPiecesConcat(CellRuns(rows[0].children), RowRuns(rows[1..]), readers);
      TextlessRow(first);
      if HasText(first) {
        assert ([first] + rest)[1..] == rest;
        FilledConcat(CellContents(first), TableContents(rest));
      }
    }
  }

  // ---- Columns ------------------------------------------------------------------------------------

  function CellsAt(row: seq<Cell>, columns: seq<nat>): seq<Cell> {
    if columns == [] then [] else [CellAt(row, columns[0])] + CellsAt(row, columns[1..])
  }

  function CellsFrom(row: seq<Cell>, index: nat, width: nat): seq<Cell>
    decreases width - index
  {
    if index >= width then [] else [CellAt(row, index)] + CellsFrom(row, index + 1, width)
  }

  lemma {:induction false} CellsAtIs(row: seq<Cell>, columns: seq<nat>)
    ensures CellsAt(row, columns) == seq(|columns|, j requires 0 <= j < |columns| => CellAt(row, columns[j]))
  {
    if columns != [] {
      CellsAtIs(row, columns[1..]);
    }
  }

  lemma NothingFilled()
    ensures Filled(CellContents([])) == []
  {
  }

  lemma FilledStep(cell: Cell, rest: seq<Cell>)
    ensures Filled(CellContents([cell] + rest))
            == (if cell.content.text == [] then [] else [Content(cell.content)]) + Filled(CellContents(rest))
  {
    assert ([cell] + rest)[1..] == rest;
  }

  // The cells of a row in the kept columns from `index` on show what the row shows from there on.
  lemma {:induction false} KeptCellsShown(rows: seq<seq<Cell>>, row: seq<Cell>, index: nat)
    requires row in rows && index <= Width(rows)
    ensures Filled(CellContents(CellsAt(row, KeptColumns(rows, index))))
            == Filled(CellContents(CellsFrom(row, index, Width(rows))))
    decreases Width(rows) - index
  {
    hide Width, CellAt, Filled, CellContents;
    if index < Width(rows) {
      var later := KeptColumns(rows, index + 1);
      KeptCellsShown(rows, row, index + 1);
      FilledStep(CellAt(row, index), CellsAt(row, later));
      FilledStep(CellAt(row, index), CellsFrom(row, index + 1, Width(rows)));
      if exists r | r in rows :: CellAt(r, index).content.text != [] {
        assert KeptColumns(rows, index) == [index] + later;
        assert CellsAt(row, [index] + later) == [CellAt(row, index)] + CellsAt(row, later);
      } else {
        assert CellAt(row, index).content.text == [];
        assert KeptColumns(rows, index) == later;
      }
    }
  }

  lemma {:induction false} PaddingShowsNothing(row: seq<Cell>, index: nat, width: nat)
    requires |row| <= width
    ensures Filled(CellContents(CellsFrom(row, index, width))) ==
            if index < |row| then Filled(CellContents(row[index..])) else []
    decreases width - index
  {
    hide Filled, CellContents;
    NothingFilled();
    if index < width {
      PaddingShowsNothing(row, index + 1, width);
      FilledStep(CellAt(row, index), CellsFrom(row, index + 1, width));
      if index < |row| {
        assert row[index..] == [row[index]] + row[index + 1..];
        FilledStep(row[index], row[index + 1..]);
        assert index + 1 == |row| ==> row[index + 1..] == [];
      }
    }
  }

  lemma {:induction false} RowsAreWithinWidth(rows: seq<seq<Cell>>, row: seq<Cell>)
    requires row in rows
    ensures |row| <= Width(rows)
  {
    if row != rows[0] {
      RowsAreWithinWidth(rows[1..], row);
    }
  }

  /** Dropping the columns without text loses nothing that any row shows. */
  lemma KeptRowShown(rows: seq<seq<Cell>>, i: nat)
    requires i < |rows|
    ensures Filled(CellContents(RemoveEmptyUnspannedColumns(rows)[i])) == Filled(CellContents(rows[i]))
  {
    if !IsSpanned(rows) {
      var row := rows[i];
      assert row in rows;
      KeptCellsShown(rows, row, 0);
      RowsAreWithinWidth(rows, row);
      PaddingShowsNothing(row, 0, Width(rows));
      CellsAtIs(row, KeptColumns(rows, 0));
      assert row[0..] == row;
      assert CellContents([]) == [];
    }
  }

  lemma {:induction false} SameRowsShowSame(a: seq<seq<Cell>>, b: seq<seq<Cell>>)
    requires |a| == |b| && forall i | 0 <= i < |a| :: Filled(CellContents(a[i])) == Filled(CellContents(b[i]))
    ensures Filled(TableContents(a)) == Filled(TableContents(b))
  {
    if a != [] {
      assert Filled(CellContents(a[0])) == Filled(CellContents(b[0]));
      forall i | 0 <= i < |a| - 1 ensures Filled(CellContents(a[1..][i])) == Filled(CellContents(b[1..][i])) {
        assert a[1..][i] == a[i + 1] && b[1..][i] == b[i + 1];
      }
      SameRowsShowSame(a[1..], b[1..]);
      FilledConcat(CellContents(a[0]), TableContents(a[1..]));
      FilledConcat(CellContents(b[0]), TableContents(b[1..]));
    }
  }

  lemma MarkedRowShown(row: seq<Cell>, every: nat)
    requires every > 0
    ensures CellContents(MarkHeaders(row, every)) == CellContents(row)
  {
  }

  lemma MarkedKeysShown(rows: seq<seq<Cell>>)
    ensures Filled(TableContents(MarkKeys(rows))) == Filled(TableContents(rows))
  {
    forall i | 0 <= i < |rows| ensures Filled(CellContents(MarkKeys(rows)[i])) == Filled(CellContents(rows[i])) {
      MarkedRowShown(rows[i], 2);
    }
    SameRowsShowSame(MarkKeys(rows), rows);
  }

  lemma MarkedHeaderShown(rows: seq<seq<Cell>>)
    requires rows != []
    ensures Filled(TableContents([MarkHeaders(rows[0], 1)] + rows[1..])) == Filled(TableContents(rows))
  {
    MarkedRowShown(rows[0], 1);
    SameRowsShowSame([MarkHeaders(rows[0], 1)] + rows[1..], rows);
  }

  // Marking headers and keys shows the same cells.
  lemma BuiltTableShown(rows: seq<seq<Cell>>, caption: Option<Inline>, readers: Readers)
    requires rows != []
    ensures BlockPieces(TableBlock(BuildTable(rows, caption, readers))) ==
            Filled(if caption.Some? then [caption.value] else []) + Filled(TableContents(rows))
  {
    hide MarkHeaders, MarkKeys, TableContents, IsHeaderRow, IsKeyValueTable, Filled;
    var table := BuildTable(rows, caption, readers);
    MarkedHeaderShown(rows);
    MarkedKeysShown(rows);
    MarkedKeysShown([MarkHeaders(rows[0], 1)] + rows[1..]);
    FilledConcat(if caption.Some? then [caption.value] else [], TableContents(table.rows));
  }

  lemma {:induction false} WidthAgrees(rows: seq<seq<Cell>>, nodes: seq<seq<Node>>, readers: Readers)
    requires RowsOfNodes(rows, nodes, readers)
    ensures Width(rows) == Longest(nodes)
  {
    hide CellOfNode;
    if rows != [] {
      assert CellsOfNodes(rows[0], nodes[0], readers);
      assert RowsOfNodes(rows[1..], nodes[1..], readers);
      WidthAgrees(rows[1..], nodes[1..], readers);
    }
  }

  lemma CellInPlace(rows: seq<seq<Cell>>, nodes: seq<seq<Node>>, i: nat, readers: Readers)
    requires RowsOfNodes(rows, nodes, readers) && i < |rows|
    ensures |rows[i]| == |nodes[i]|
    ensures forall j | 0 <= j < |rows[i]| ::
              && nodes[i][j].Element?
              && (rows[i][j].content.text != [] <==> HasInk(nodes[i][j], readers))
              && Layout.Spans(rows[i][j].colspan, rows[i][j].rowspan) == SpansOfNode(nodes[i][j], readers)
  {
    hide InlineOf, HasInk, SpansOfNode;
    assert CellsOfNodes(rows[i], nodes[i], readers);
  }

  lemma SpansAgree(rows: seq<seq<Cell>>, nodes: seq<seq<Node>>, readers: Readers)
    requires RowsOfNodes(rows, nodes, readers)
    ensures TableSpans(rows) == NodeSpans(nodes, readers)
  {
    hide RowsOfNodes, HasInk, SpansOfNode;
    assert |rows| == |nodes| by { SameCount(rows, nodes, readers); }
    forall i | 0 <= i < |rows| ensures TableSpans(rows)[i] == NodeSpans(nodes, readers)[i] {
      CellInPlace(rows, nodes, i, readers);
    }
  }

  lemma SameCount(rows: seq<seq<Cell>>, nodes: seq<seq<Node>>, readers: Readers)
    requires RowsOfNodes(rows, nodes, readers)
    ensures |rows| == |nodes|
  {
  }

  lemma SpannedAgrees(rows: seq<seq<Cell>>, nodes: seq<seq<Node>>, readers: Readers)
    requires RowsOfNodes(rows, nodes, readers)
    ensures IsSpanned(rows) <==> SomeSpan(nodes, readers)
  {
    hide RowsOfNodes, HasInk, SpansOfNode;
    SameCount(rows, nodes, readers);
    if IsSpanned(rows) {
      var row :| row in rows && exists cell | cell in row :: cell.colspan > 1 || cell.rowspan > 1;
      var i :| 0 <= i < |rows| && rows[i] == row;
      var j :| 0 <= j < |row| && (row[j].colspan > 1 || row[j].rowspan > 1);
      CellInPlace(rows, nodes, i, readers);
      assert nodes[i][j] in nodes[i] && nodes[i] in nodes && SpansOfNode(nodes[i][j], readers) != UNIT;
    }
    if SomeSpan(nodes, readers) {
      var cells :| cells in nodes && exists cell | cell in cells :: SpansOfNode(cell, readers) != UNIT;
      var i :| 0 <= i < |nodes| && nodes[i] == cells;
      var j :| 0 <= j < |cells| && SpansOfNode(cells[j], readers) != UNIT;
      CellInPlace(rows, nodes, i, readers);
      assert rows[i][j] in rows[i] && rows[i] in rows;
    }
  }

  lemma ColumnTextAgrees(rows: seq<seq<Cell>>, nodes: seq<seq<Node>>, index: nat, readers: Readers)
    requires RowsOfNodes(rows, nodes, readers)
    ensures (exists row | row in rows :: CellAt(row, index).content.text != []) <==>
            SomeText(nodes, index, readers)
  {
    hide RowsOfNodes, HasInk, SpansOfNode;
    SameCount(rows, nodes, readers);
    if exists row | row in rows :: CellAt(row, index).content.text != [] {
      var row :| row in rows && CellAt(row, index).content.text != [];
      var i :| 0 <= i < |rows| && rows[i] == row;
      CellInPlace(rows, nodes, i, readers);
      assert nodes[i] in nodes;
    }
    if SomeText(nodes, index, readers) {
      var cells :| cells in nodes && index < |cells| && HasInk(cells[index], readers);
      var i :| 0 <= i < |nodes| && nodes[i] == cells;
      CellInPlace(rows, nodes, i, readers);
      assert rows[i] in rows && CellAt(rows[i], index) == rows[i][index];
    }
  }

  lemma {:induction false} KeptCount(rows: seq<seq<Cell>>, nodes: seq<seq<Node>>, index: nat, readers: Readers)
    requires RowsOfNodes(rows, nodes, readers)
    ensures |KeptColumns(rows, index)| == TextColumns(nodes, index, readers)
    decreases Width(rows) - index
  {
    hide RowsOfNodes, HasInk, SomeText, CellAt, Width, Longest;
    WidthAgrees(rows, nodes, readers);
    if index < Width(rows) {
      KeptCount(rows, nodes, index + 1, readers);
      ColumnTextAgrees(rows, nodes, index, readers);
    }
  }

  // ---- Tables without spans ---------------------------------------------------------------------

  ghost predicate Below(occupied: seq<nat>, row: nat) {
    forall i: nat :: Layout.At(occupied, i) <= row
  }

  lemma {:induction false} UnitRow(cells: seq<Layout.Spans>, occupied: seq<nat>, row: nat, column: nat)
    requires (forall c | c in cells :: c == UNIT) && Below(occupied, row + 1)
    requires forall i: nat | column <= i :: Layout.At(occupied, i) <= row
    ensures var (placed, after) := Layout.PlaceRow(cells, occupied, row, column);
            Below(after, row + 1) && Layout.MaxEnd(placed) == if cells == [] then 0 else column + |cells|
    decreases cells
  {
    if cells != [] {
      var first := Layout.PlaceCell(cells[0], occupied, row, column);
      assert cells[0] in cells && forall c | c in cells[1..] :: c in cells;
      assert Layout.IsFree(occupied, row, column, 1);
      UnitRow(cells[1..], Layout.Mark(occupied, first), row, column + 1);
    }
  }

  lemma {:induction false} UnitRows(rows: seq<seq<Layout.Spans>>, occupied: seq<nat>, row: nat, width: nat)
    requires (forall r | r in rows :: |r| == width && forall c | c in r :: c == UNIT) && Below(occupied, row)
    ensures Layout.MaxEnd(Layout.Flatten(Layout.PlaceFrom(rows, occupied, row))) == if rows == [] then 0 else width
    decreases rows
  {
    if rows != [] {
      var (first, after) := Layout.PlaceRow(rows[0], occupied, row, 0);
      var rest := Layout.PlaceFrom(rows[1..], after, row + 1);
      assert rows[0] in rows;
      UnitRow(rows[0], occupied, row, 0);
      UnitRows(rows[1..], after, row + 1, width);
      assert ([first] + rest)[1..] == rest;
      Layout.MaxEndConcat(first, Layout.Flatten(rest));
    }
  }

  lemma ColumnsAgree(rows: seq<seq<Cell>>, nodes: seq<seq<Node>>, readers: Readers)
    requires RowsOfNodes(rows, nodes, readers) && rows != []
    ensures Layout.LogicalColumns(TableSpans(RemoveEmptyUnspannedColumns(rows))) == Columns(nodes, readers)
  {
    hide RowsOfNodes, TextColumns;
    SpansAgree(rows, nodes, readers);
    SpannedAgrees(rows, nodes, readers);
    if !IsSpanned(rows) {
      KeptCount(rows, nodes, 0, readers);
      UnspannedCells(rows);
      UnitRows(TableSpans(RemoveEmptyUnspannedColumns(rows)), [], 0, |KeptColumns(rows, 0)|);
    }
  }

  lemma UnspannedCells(rows: seq<seq<Cell>>)
    requires !IsSpanned(rows)
    ensures forall r | r in TableSpans(RemoveEmptyUnspannedColumns(rows)) ::
              |r| == |KeptColumns(rows, 0)| && forall c | c in r :: c == UNIT
  {
    var keep, kept := KeptColumns(rows, 0), RemoveEmptyUnspannedColumns(rows);
    forall i, j | 0 <= i < |rows| && 0 <= j < |keep| ensures TableSpans(kept)[i][j] == UNIT {
      var cell := CellAt(rows[i], keep[j]);
      assert kept[i][j] == cell && rows[i] in rows;
      assert keep[j] < |rows[i]| ==> cell in rows[i];
    }
  }

  // ---- Which tables are data tables ------------------------------------------------------------

  lemma {:induction false} NestedTableIsBelow(children: seq<Node>, ctx: Context, depth: nat)
    requires !ctx.bounded
    ensures ContainsNestedTable(children, ctx, depth).0 == TableBelow(children)
    decreases children
  {
    if children != [] {
      NestedTableIsBelow(children[1..], ctx, depth);
      if children[0].Element? {
        NestedTableIsBelow(children[0].children, ctx, depth + 1);
      }
    }
  }

  // A data table is one block that shows its caption and all cells of its rows.
  lemma DataTableShown(table: Node, ctx: Context, depth: nat, readers: Readers)
    requires !ctx.bounded && table.Element? && IsDataTable(table, readers)
    ensures Shown(ParseTableElement(table, ctx, depth, readers).0,
                  CaptionRuns(table.children) + RowRuns(DirectTableRows(table.children, true)), readers)
  {
    hide ParseRows, TextRows, Columns, InlineOf, Filled, TableContents, BuildTable, RemoveEmptyUnspannedColumns;
    var rows := DirectTableRows(table.children, true);
    var parsed := ParseRows(rows, ctx, depth + 1, readers).0;
    var caption := ParseCaption(table.children, ctx, depth + 1, readers).0;
    NestedTableIsBelow(table.children, ctx, depth + 1);
    ParseRowsShown(rows, ctx, depth + 1, readers);
    SameCount(parsed, TextRows(rows, readers), readers);
    ColumnsAgree(parsed, TextRows(rows, readers), readers);
    CaptionShown(table.children, ctx, depth + 1, readers);
    KeptRowsShown(parsed);
    var kept := RemoveEmptyUnspannedColumns(parsed);
    var runs := CaptionRuns(table.children) + RowRuns(rows);
    BuiltTableShown(kept, caption, readers);
    RunsPiecesConcat(CaptionRuns(table.children), RowRuns(rows), readers);
    ShownOne(TableBlock(BuildTable(kept, caption, readers)), runs, readers);
  }

  lemma KeptRowsShown(rows: seq<seq<Cell>>)
    ensures Filled(TableContents(RemoveEmptyUnspannedColumns(rows))) == Filled(TableContents(rows))
  {
    hide RemoveEmptyUnspannedColumns, Filled;
    forall i | 0 <= i < |rows|
      ensures Filled(CellContents(RemoveEmptyUnspannedColumns(rows)[i])) == Filled(CellContents(rows[i]))
    {
      KeptRowShown(rows, i);
    }
    SameRowsShowSame(RemoveEmptyUnspannedColumns(rows), rows);
  }

  lemma CaptionShown(children: seq<Node>, ctx: Context, depth: nat, readers: Readers)
    requires !ctx.bounded
    ensures var caption := ParseCaption(children, ctx, depth, readers).0;
            Filled(if caption.Some? then [caption.value] else []) == RunsPieces(CaptionRuns(children), readers)
  {
    hide InlineOf, ParseInline;
    var caption := FindCaption(children);
    if caption.Some? {
      InlineOfAnywhere(caption.value.children, ctx, depth, readers);
      OneRun(Inlined(caption.value.children), readers);
    }
  }

  lemma OtherTablesAreLayout(table: Node, ctx: Context, depth: nat, readers: Readers)
    requires !ctx.bounded && table.Element? && !IsDataTable(table, readers)
    ensures ParseTableElement(table, ctx, depth, readers).0
            == FlattenLayoutTable(table.children, ctx, depth + 1, readers).0
  {
    hide ParseRows, TextRows, Columns, FlattenLayoutTable, BuildTable, RemoveEmptyUnspannedColumns, TableSpans;
    var rows := DirectTableRows(table.children, true);
    var parsed := ParseRows(rows, ctx, depth + 1, readers).0;
    NestedTableIsBelow(table.children, ctx, depth + 1);
    ParseRowsShown(rows, ctx, depth + 1, readers);
    SameCount(parsed, TextRows(rows, readers), readers);
    if parsed != [] {
      ColumnsAgree(parsed, TextRows(rows, readers), readers);
    }
  }

  // ---- The document ------------------------------------------------------------------------------

  lemma {:induction false} PushedBlocks(blocks: seq<Block>, p: Progress)
    requires !p.ctx.bounded
    ensures PushBlocks(blocks, p) == p.(blocks := p.blocks + blocks)
    decreases |blocks|
  {
    if blocks == [] {
      assert p.blocks + blocks == p.blocks;
    } else {
      PushedBlocks(blocks[1..], PushBlock(blocks[0], p));
      assert p.blocks + [blocks[0]] + blocks[1..] == p.blocks + blocks;
    }
  }

  /**
   * For every tree, parsed without limits: the blocks show exactly the runs
   * read off the tree, in document order, and every block shows something.
   */
  lemma {:induction false} ParseBlocksShown(nodes: seq<Node>, ctx: Context, depth: nat, readers: Readers)
    requires !ctx.bounded
    ensures Shown(ParseBlocks(nodes, ctx, depth, readers).0, TreeRuns(nodes, [], readers), readers)
    decreases nodes, 4
  {
    hide VisitNodes, FlushInlineRun, TreeRuns, Shown;
    VisitNodesShown(nodes, Progress([], [], ctx), depth, readers);
    var blocks := ParseBlocks(nodes, ctx, depth, readers).0;
    assert blocks[0..] == blocks;
  }

  lemma {:induction false} VisitNodesShown(nodes: seq<Node>, p: Progress, depth: nat, readers: Readers)
    requires !p.ctx.bounded
    ensures Adds(p.blocks, FlushInlineRun(VisitNodes(nodes, p, depth, readers), depth, readers).blocks,
                 TreeRuns(nodes, p.run, readers), readers)
    decreases nodes, 3
  {
    hide Adds, ElementBlocks, ElementRuns, FlushInlineRun, PushBlocks;
    if nodes == [] {
      FlushShown(p, depth, readers);
    } else if OpensBlock(nodes[0]) {
      var q := VisitNode(nodes[0], p, depth, readers);
      VisitBlockShown(nodes[0], p, depth, readers);
      VisitNodesShown(nodes[1..], q, depth, readers);
      AddsThenAdds(p.blocks, q.blocks, FlushInlineRun(VisitNodes(nodes, p, depth, readers), depth, readers).blocks,
                   PendingRun(p.run) + ElementRuns(nodes[0], readers), TreeRuns(nodes[1..], [], readers), readers);
    } else {
      VisitNodesShown(nodes[1..], VisitNode(nodes[0], p, depth, readers), depth, readers);
    }
  }

  lemma {:induction false} VisitBlockShown(node: Node, p: Progress, depth: nat, readers: Readers)
    requires !p.ctx.bounded && OpensBlock(node)
    ensures var q := VisitNode(node, p, depth, readers);
            q.run == [] && Adds(p.blocks, q.blocks, PendingRun(p.run) + ElementRuns(node, readers), readers)
    decreases node, 2
  {
    hide Adds, Shown, ElementBlocks, ElementRuns, FlushInlineRun, PushBlocks;
    var flushed := FlushInlineRun(p, depth, readers);
    var blocks := ElementBlocks(node, p.ctx, depth, readers).0;
    FlushShown(p, depth, readers);
    ElementBlocksShown(node, p.ctx, depth, readers);
    PushedBlocks(blocks, flushed);
    AddsBlocks(flushed.blocks, blocks, ElementRuns(node, readers), readers);
    AddsThenAdds(p.blocks, flushed.blocks, flushed.blocks + blocks, PendingRun(p.run), ElementRuns(node, readers),
                 readers);
  }

  lemma {:induction false} ElementBlocksShown(node: Node, ctx: Context, depth: nat, readers: Readers)
    requires !ctx.bounded && node.Element?
    ensures Shown(ElementBlocks(node, ctx, depth, readers).0, ElementRuns(node, readers), readers)
    decreases node, 1
  {
    hide ParseInline, InlineOf, CollectText, ParseItems, ItemRuns, ParseTableElement, IsDataTable, ParseBlocks,
         TreeRuns, Shown, RunPieces;
    var name := node.name;
    if name.Pre? {
      PreShown(node.children, ctx, depth + 1, readers);
    } else if name.Hr? {
      RuleShown(readers);
    } else if name.Ul? || name.Ol? {
      var items := ParseItems(node.children, ctx, depth + 1, readers).0;
      ItemsShown(node.children, ctx, depth + 1, readers);
      ListShown(ListBlock(name.Ol?, if name.Ol? then BoundedListStart(node.attrs.start, readers) else 1, items),
                ItemRuns(node.children), readers);
    } else if name.Table? {
      TableShown(node, ctx, depth + 1, readers);
    } else if ContainsBlockChild(node) && !name.Heading? && !name.Blockquote? && !name.Footer? {
      ParseBlocksShown(node.children, ctx, depth + 1, readers);
    } else {
      InlineOfAnywhere(node.children, ctx, depth + 1, readers);
      ContentBlockShown(name, node.children, readers);
    }
  }

  lemma ContentBlockShown(name: TagName, nodes: seq<Node>, readers: Readers)
    ensures Shown(ContentBlock(name, InlineOf(nodes, readers)), [Inlined(nodes)], readers)
  {
    hide InlineOf;
    OneRun(Inlined(nodes), readers);
    FilledOne(InlineOf(nodes, readers));
    if InlineOf(nodes, readers).text != [] {
      ShownOne(ContentBlock(name, InlineOf(nodes, readers))[0], [Inlined(nodes)], readers);
    }
  }

  lemma RuleShown(readers: Readers)
    ensures Shown([DividerBlock], [Rule], readers)
  {
    OneRun(Rule, readers);
    ShownOne(DividerBlock, [Rule], readers);
  }

  lemma ListShown(b: Block, runs: seq<Run>, readers: Readers)
    requires b.ListBlock? && Filled(b.items) == RunsPieces(runs, readers) && (b.items != [] ==> Filled(b.items) != [])
    ensures Shown(if b.items == [] then [] else [b], runs, readers)
  {
    if b.items != [] {
      ShownOne(b, runs, readers);
    }
  }

  lemma {:induction false} TableShown(table: Node, ctx: Context, depth: nat, readers: Readers)
    requires !ctx.bounded && table.Element? && table.name.Table?
    ensures Shown(ParseTableElement(table, ctx, depth, readers).0, ElementRuns(table, readers), readers)
    decreases table, 0
  {
    hide IsDataTable, ParseTableElement, Shown;
    if IsDataTable(table, readers) {
      DataTableShown(table, ctx, depth, readers);
    } else {
      OtherTablesAreLayout(table, ctx, depth, readers);
      LayoutShown(table.children, ctx, depth + 1, readers);
    }
  }

  lemma {:induction false} LayoutShown(children: seq<Node>, ctx: Context, depth: nat, readers: Readers)
    requires !ctx.bounded
    ensures Shown(FlattenLayoutTable(children, ctx, depth, readers).0, LayoutRuns(children, readers), readers)
    decreases children, 6
  {
    hide Shown, FlattenCell, LayoutCellRuns, FlattenRows, LayoutRowRuns;
    if DirectTableRows(children, true) == [] {
      LayoutCellShown(children, ctx, depth, readers);
    } else {
      LayoutRowsShown(children, true, ctx, depth, readers);
    }
  }

  lemma {:induction false} LayoutRowsShown(
    children: seq<Node>, groups: bool, ctx: Context, depth: nat, readers: Readers)
    requires !ctx.bounded
    ensures Shown(FlattenRows(children, groups, ctx, depth, readers).0, LayoutRowRuns(children, groups, readers),
                  readers)
    decreases children, 5
  {
    hide Shown, FlattenCells, LayoutCellsRuns;
    ShownNothing(readers);
    if children != [] {
      var first := children[0];
      var blocks: seq<Block>, runs: seq<Run> := [], [];
      if first.Element? && first.name.Tr? {
        blocks, runs := FlattenCells(first.children, ctx, depth, readers).0, LayoutCellsRuns(first.children, readers);
        LayoutCellsShown(first.children, ctx, depth, readers);
      } else if groups && IsRowGroup(first) {
        blocks, runs := FlattenRows(first.children, false, ctx, depth, readers).0,
          LayoutRowRuns(first.children, false, readers);
        LayoutRowsShown(first.children, false, ctx, depth, readers);
      }
      LayoutRowsShown(children[1..], groups, ctx, depth, readers);
      ShownBoth(blocks, runs, FlattenRows(children[1..], groups, ctx, depth, readers).0,
                LayoutRowRuns(children[1..], groups, readers), readers);
    }
  }

  lemma {:induction false} LayoutCellsShown(children: seq<Node>, ctx: Context, depth: nat, readers: Readers)
    requires !ctx.bounded
    ensures Shown(FlattenCells(children, ctx, depth, readers).0, LayoutCellsRuns(children, readers), readers)
    decreases children, 5
  {
    hide Shown, FlattenCell, LayoutCellRuns;
    ShownNothing(readers);
    if children != [] {
      var blocks: seq<Block>, runs: seq<Run> := [], [];
      if IsCell(children[0]) {
        blocks, runs := FlattenCell(children[0].children, ctx, depth, readers).0,
          LayoutCellRuns(children[0].children, readers);
        LayoutCellShown(children[0].children, ctx, depth, readers);
      }
      LayoutCellsShown(children[1..], ctx, depth, readers);
      ShownBoth(blocks, runs, FlattenCells(children[1..], ctx, depth, readers).0,
                LayoutCellsRuns(children[1..], readers), readers);
    }
  }

  lemma {:induction false} LayoutCellShown(content: seq<Node>, ctx: Context, depth: nat, readers: Readers)
    requires !ctx.bounded
    ensures Shown(FlattenCell(content, ctx, depth, readers).0, LayoutCellRuns(content, readers), readers)
    decreases content, 5
  {
    hide ParseBlocks, TreeRuns, ParseInline, InlineOf, Shown, MakesBlocks;
    var blocks, runs := ParseBlocks(content, ctx, depth + 1, readers).0, TreeRuns(content, [], readers);
    ParseBlocksShown(content, ctx, depth + 1, readers);
    BlocksAreMade(blocks, runs, readers);
    if blocks == [] {
      InlineOfAnywhere(content, ctx, depth + 1, readers);
      ShownContent(ParagraphBlock(InlineOf(content, readers)), content, readers);
    }
  }

  // Runs make blocks exactly if one of them shows something.
  lemma BlocksAreMade(blocks: seq<Block>, runs: seq<Run>, readers: Readers)
    requires Shown(blocks, runs, readers)
    ensures blocks != [] <==> MakesBlocks(runs, readers)
  {
    hide RunPieces, RunInk, BlockPieces;
    RunsMakePieces(runs, readers);
    if blocks != [] {
      assert blocks[0] in blocks;
    }
  }

  lemma {:induction false} RunsMakePieces(runs: seq<Run>, readers: Readers)
    ensures RunsPieces(runs, readers) != [] <==> MakesBlocks(runs, readers)
  {
    hide RunPieces, RunInk;
    if runs != [] {
      RunsMakePieces(runs[1..], readers);
      RunMakesPiece(runs[0], readers);
      assert runs == [runs[0]] + runs[1..];
    }
  }

  lemma RunMakesPiece(run: Run, readers: Readers)
    ensures RunPieces(run, readers) != [] <==> run.Rule? || RunInk(run, readers, true) != []
  {
    RunShowsItsInk(run, readers);
  }

  // ---- Ink -----------------------------------------------------------------------------------------

  function PieceInk(p: Piece): string {
    match p
    case Content(c) => NonSpace(c.text)
    case Bare(text) => NonSpace(text)
    case Divider => []
  }

  function PiecesInk(pieces: seq<Piece>): string {
    if pieces == [] then [] else PieceInk(pieces[0]) + PiecesInk(pieces[1..])
  }

  lemma {:induction false} PiecesInkConcat(a: seq<Piece>, b: seq<Piece>)
    ensures PiecesInk(a + b) == PiecesInk(a) + PiecesInk(b)
  {
    hide PieceInk;
    if a == [] {
      assert a + b == b;
    } else {
      assert (a + b)[0] == a[0] && (a + b)[1..] == a[1..] + b;
      PiecesInkConcat(a[1..], b);
      assert PieceInk(a[0]) + (PiecesInk(a[1..]) + PiecesInk(b)) == PieceInk(a[0]) + PiecesInk(a[1..]) + PiecesInk(b);
    }
  }

  lemma OnePieceInk(p: Piece)
    ensures PiecesInk([p]) == PieceInk(p)
  {
    assert [p][1..] == [];
    assert PieceInk(p) + [] == PieceInk(p);
  }

  lemma RunShowsItsInk(run: Run, readers: Readers)
    ensures PiecesInk(RunPieces(run, readers)) == RunInk(run, readers, true)
    ensures !run.Rule? ==> (RunPieces(run, readers) == [] <==> RunInk(run, readers, true) == [])
  {
    match run
    case Inlined(nodes) =>
      ParseInlineInk(nodes, FREE, 0, true, true, readers);
      FilledOne(InlineOf(nodes, readers));
      OnePieceInk(Content(InlineOf(nodes, readers)));
    case Verbatim(nodes) =>
      PreTextInk(nodes);
      OnePieceInk(Bare(PreText(nodes)));
    case Rule =>
      OnePieceInk(Divider);
  }

  lemma PreTextInk(nodes: seq<Node>)
    ensures NonSpace(PreText(nodes)) == CollectedInk(nodes) && (PreText(nodes) == [] <==> CollectedInk(nodes) == [])
  {
    hide CollectText, CollectedInk, TrimEnd, Visible;
    var collected := CollectText(nodes, FREE, 0, true).0;
    var ts := TextTokens(collected);
    CollectTextInk(nodes, FREE, 0, true);
    TrimEndAlike(ts);
    NonSpaceOfText(TrimEnd(ts));
    VisibleOfText(collected);
    TextLengthOf(TrimEnd(ts));
    TrimEndLast(ts);
    if TrimEnd(ts) != [] {
      LastIsVisible(TrimEnd(ts));
    }
  }

  lemma LastIsVisible(ts: seq<Token>)
    requires ts != [] && ts[|ts| - 1].Ch? && !IsSpace(ts[|ts| - 1].c)
    ensures Visible(ts) != []
  {
    var last := ts[|ts| - 1];
    VisibleConcat(ts[..|ts| - 1], [last]);
    assert ts == ts[..|ts| - 1] + [last];
    assert Visible([last]) == [last.c] + Visible([]);
  }

  lemma {:induction false} TrimEndLast(ts: seq<Token>)
    ensures TrimEnd(ts) != [] ==> var last := TrimEnd(ts)[|TrimEnd(ts)| - 1]; !(last.Ch? && IsSpace(last.c))
    decreases |ts|
  {
    if ts != [] && ts[|ts| - 1].Ch? && IsSpace(ts[|ts| - 1].c) {
      TrimEndLast(ts[..|ts| - 1]);
    }
  }

  lemma {:induction false} FilledInk(items: seq<Inline>)
    ensures PiecesInk(Filled(items)) == Ink(items)
  {
    if items != [] {
      FilledInk(items[1..]);
      OnePieceInk(Content(items[0]));
      PiecesInkConcat([Content(items[0])], Filled(items[1..]));
      assert [] + Filled(items[1..]) == Filled(items[1..]) && [] + Ink(items[1..]) == Ink(items[1..]);
    }
  }

  lemma {:induction false} BlocksShowTheirPieces(blocks: seq<Block>)
    ensures PiecesInk(BlocksPieces(blocks)) == BlocksInk(blocks)
  {
    if blocks != [] {
      var b := blocks[0];
      BlocksShowTheirPieces(blocks[1..]);
      PiecesInkConcat(BlockPieces(b), BlocksPieces(blocks[1..]));
      match b
      case PreBlock(text) => OnePieceInk(Bare(text));
      case DividerBlock => OnePieceInk(Divider);
      case _ => FilledInk(Contents(b));
    }
  }

  lemma {:induction false} RunsShowTheirInk(runs: seq<Run>, readers: Readers)
    ensures PiecesInk(RunsPieces(runs, readers)) == RunsInk(runs, readers, true)
  {
    hide RunPieces, RunInk;
    if runs != [] {
      RunShowsItsInk(runs[0], readers);
      RunsShowTheirInk(runs[1..], readers);
      PiecesInkConcat(RunPieces(runs[0], readers), RunsPieces(runs[1..], readers));
    }
  }

  /** For every tree, parsed without limits: the blocks show exactly the ink of the tree. */
  lemma ParseBlocksInk(nodes: seq<Node>, ctx: Context, depth: nat, readers: Readers)
    requires !ctx.bounded
    ensures BlocksInk(ParseBlocks(nodes, ctx, depth, readers).0) == TreeInk(nodes, readers, true)
  {
    ParseBlocksShown(nodes, ctx, depth, readers);
    BlocksShowTheirPieces(ParseBlocks(nodes, ctx, depth, readers).0);
    RunsShowTheirInk(TreeRuns(nodes, [], readers), readers);
  }
}
