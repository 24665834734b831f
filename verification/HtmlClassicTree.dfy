/**
 * What the classic form shows of a tree. It is the ink of the tree, but that a
 * table of records gives up its header row for labels. `TreeText` reads the tree
 * as `TreeRuns` does and leaves open what a data table comes to.
 */
module HtmlClassicTree {
  import opened HtmlTokens
  import opened HtmlNormalize
  import opened HtmlLinks
  import opened HtmlDom
  import opened HtmlInline
  import opened HtmlBlocks
  import opened HtmlBlockLaws
  import opened HtmlRender
  import opened HtmlRenderLaws
  import opened HtmlInk
  import opened HtmlRuns
  import opened HtmlShown
  import opened HtmlWhole
  import opened HtmlClassicInk
  import Layout = TableLayout

  // An element that is parsed as the blocks of its children.
  predicate IsWrapper(node: Node)
    requires node.Element?
  {
    var name := node.name;
    && !name.Pre? && !name.Hr? && !name.Ul? && !name.Ol? && !name.Table?
    && ContainsBlockChild(node) && !name.Heading? && !name.Blockquote? && !name.Footer?
  }

  // What sibling nodes show behind the inline nodes in `pending`, when a data table shows `of` it.
  function TreeText(nodes: seq<Node>, pending: seq<Node>, of: Node -> string, readers: Readers): string
    decreases nodes, 4
  {
    if nodes == [] then RunsInk(PendingRun(pending), readers, true)
    else if OpensBlock(nodes[0]) then
      RunsInk(PendingRun(pending), readers, true) + ElementText(nodes[0], of, readers)
        + TreeText(nodes[1..], [], of, readers)
    else TreeText(nodes[1..], if JoinsRun(nodes[0]) then pending + [nodes[0]] else pending, of, readers)
  }

  function ElementText(node: Node, of: Node -> string, readers: Readers): string
    requires node.Element?
    decreases node, 1
  {
    if node.name.Table? then if IsDataTable(node, readers) then of(node) else LayoutText(node.children, of, readers)
    else if IsWrapper(node) then TreeText(node.children, [], of, readers)
    else RunsInk(ElementRuns(node, readers), readers, true)
  }

  function LayoutText(children: seq<Node>, of: Node -> string, readers: Readers): string
    decreases children, 6
  {
    if DirectTableRows(children, true) == [] then LayoutCellText(children, of, readers)
    else LayoutRowsText(children, true, of, readers)
  }

  function LayoutRowsText(children: seq<Node>, groups: bool, of: Node -> string, readers: Readers): string
    decreases children, 5
  {
    if children == [] then []
    else
      var first := children[0];
      (if first.Element? && first.name.Tr? then LayoutCellsText(first.children, of, readers)
       else if groups && IsRowGroup(first) then LayoutRowsText(first.children, false, of, readers)
       else []) + LayoutRowsText(children[1..], groups, of, readers)
  }

  function LayoutCellsText(children: seq<Node>, of: Node -> string, readers: Readers): string
    decreases children, 5
  {
    if children == [] then []
    else
      (if IsCell(children[0]) then LayoutCellText(children[0].children, of, readers) else [])
        + LayoutCellsText(children[1..], of, readers)
  }

  function LayoutCellText(content: seq<Node>, of: Node -> string, readers: Readers): string
    decreases content, 5
  {
    if MakesBlocks(TreeRuns(content, [], readers), readers) then TreeText(content, [], of, readers)
    else InlineInk(content, readers, true)
  }

  // ---- Data tables, parsed as they stand --------------------------------------------------

  function RowsOf(table: Node, readers: Readers): seq<seq<Cell>>
    requires table.Element?
  {
    ParseRows(DirectTableRows(table.children, true), FREE, 0, readers).0
  }

  function CaptionOf(table: Node, readers: Readers): Option<Inline>
    requires table.Element?
  {
    ParseCaption(table.children, FREE, 0, readers).0
  }

  function TableOf(table: Node, readers: Readers): TableModel
    requires table.Element? && RowsOf(table, readers) != []
  {
    BuildTable(RemoveEmptyUnspannedColumns(RowsOf(table, readers)), CaptionOf(table, readers), readers)
  }

  predicate IsRecordTable(table: Node, readers: Readers) {
    table.Element? && RowsOf(table, readers) != [] && ShownAsRecords(TableOf(table, readers))
  }

  // A table of records with the labels of its fields, any other with all its cells.
  function TableInk(table: Node, readers: Readers): string {
    if !table.Element? || RowsOf(table, readers) == [] then [] else ClassicInk(TableBlock(TableOf(table, readers)))
  }

  // The ink of the caption and of all cells.
  function WholeInk(table: Node, readers: Readers): string {
    if !table.Element? then []
    else RunsInk(CaptionRuns(table.children) + RowRuns(DirectTableRows(table.children, true)), readers, true)
  }

  // The same without the first row that has text, if that is the header row of records.
  function BodyInk(table: Node, readers: Readers): string {
    if !IsRecordTable(table, readers) then WholeInk(table, readers)
    else
      var rows := TextRows(DirectTableRows(table.children, true), readers);
      RunsInk(CaptionRuns(table.children), readers, true) + if rows == [] then [] else CellsInk(rows[1..], readers)
  }

  function CellsInk(rows: seq<seq<Node>>, readers: Readers): string {
    if rows == [] then [] else CellRowInk(rows[0], readers) + CellsInk(rows[1..], readers)
  }

  function CellRowInk(cells: seq<Node>, readers: Readers): string {
    if cells == [] then []
    else
      (if cells[0].Element? then InlineInk(cells[0].children, readers, true) else []) + CellRowInk(cells[1..], readers)
  }

  // ---- A parse without limits depends on the nodes only ---------------------------------------

  ghost predicate SamePending(a: seq<Pending>, b: seq<Pending>) {
    |a| == |b| && forall i | 0 <= i < |a| :: a[i].node == b[i].node && a[i].strong == b[i].strong
  }

  lemma {:induction false} AllStrongAnywhere(
    a: seq<Pending>, b: seq<Pending>, visible: bool, x: Context, y: Context, readers: Readers)
    requires !x.bounded && !y.bounded && SamePending(a, b)
    ensures AllStrong(a, visible, x, readers).0 == AllStrong(b, visible, y, readers).0
    decreases PendingSize(a), |a|
  {
    hide IsBlank, ResolveStrong, NodesSize, NodeSize;
    if a != [] {
      var n := |a| - 1;
      var current, s, t := a[n], a[..n], b[..n];
      if current.node.Text? {
        AllStrongAnywhere(s, t, visible || !IsBlank(current.node.data), x, y, readers);
      } else if current.node.NonContent? || IsDropped(current.node.name) {
        AllStrongAnywhere(s, t, visible, x, y, readers);
      } else {
        var strong := ResolveStrong(current.strong, current.node, readers);
        var p := PushChildren(current.node.children, current.depth + 1, strong);
        var q := PushChildren(current.node.children, b[n].depth + 1, strong);
        StackShrinks(a, p, strong);
        AllStrongAnywhere(s + p, t + q, visible, x, y, readers);
      }
    }
  }

  lemma StackShrinks(a: seq<Pending>, pushed: seq<Pending>, strong: bool)
    requires a != [] && a[|a| - 1].node.Element?
    requires pushed == PushChildren(a[|a| - 1].node.children, a[|a| - 1].depth + 1, strong)
    ensures PendingSize(a[..|a| - 1] + pushed) < PendingSize(a)
  {
    PendingSizeConcat(a[..|a| - 1], pushed);
    PushedSize(a[|a| - 1].node.children, a[|a| - 1].depth + 1, strong);
  }

  lemma ParseCellAnywhere(cell: Node, x: Context, d: nat, y: Context, e: nat, readers: Readers)
    requires !x.bounded && !y.bounded && cell.Element?
    ensures ParseCell(cell, x, d, readers).0 == ParseCell(cell, y, e, readers).0
  {
    hide ParseInline, AllStrong;
    ParseInlineAnywhere(cell.children, x, d + 1, y, e + 1, true, true, readers);
    var strong := ResolveStrong(false, cell, readers);
    AllStrongAnywhere(PushChildren(cell.children, d + 1, strong), PushChildren(cell.children, e + 1, strong), false,
                      x, y, readers);
  }

  lemma {:induction false} ParseCellsAnywhere(
    children: seq<Node>, x: Context, d: nat, y: Context, e: nat, readers: Readers)
    requires !x.bounded && !y.bounded
    ensures ParseCells(children, x, d, readers).0 == ParseCells(children, y, e, readers).0
  {
    hide ParseCell;
    if children != [] {
      if IsCell(children[0]) {
        ParseCellAnywhere(children[0], x, d, y, e, readers);
      }
      ParseCellsAnywhere(children[1..], x, d, y, e, readers);
    }
  }

  lemma {:induction false} ParseRowsAnywhere(rows: seq<Node>, x: Context, d: nat, y: Context, e: nat, readers: Readers)
    requires !x.bounded && !y.bounded && forall r | r in rows :: r.Element?
    ensures ParseRows(rows, x, d, readers).0 == ParseRows(rows, y, e, readers).0
  {
    hide ParseCells, HasText;
    if rows != [] {
      ParseCellsAnywhere(rows[0].children, x, d, y, e, readers);
      ParseRowsAnywhere(rows[1..], x, d, y, e, readers);
    }
  }

  lemma ParseCaptionAnywhere(children: seq<Node>, x: Context, d: nat, y: Context, e: nat, readers: Readers)
    requires !x.bounded && !y.bounded
    ensures ParseCaption(children, x, d, readers).0 == ParseCaption(children, y, e, readers).0
  {
    hide ParseInline;
    if FindCaption(children).Some? {
      ParseInlineAnywhere(FindCaption(children).value.children, x, d, y, e, true, true, readers);
    }
  }

  // ---- The classic ink of the blocks is that of the tree --------------------------------------

  lemma {:induction false} ClassicInksConcat(a: seq<Block>, b: seq<Block>)
    ensures ClassicInks(a + b) == ClassicInks(a) + ClassicInks(b)
  {
    hide ClassicInk;
    if a == [] {
      assert a + b == b;
    } else {
      assert (a + b)[0] == a[0] && (a + b)[1..] == a[1..] + b;
      ClassicInksConcat(a[1..], b);
      var own, x, y := ClassicInk(a[0]), ClassicInks(a[1..]), ClassicInks(b);
      assert own + (x + y) == own + x + y;
    }
  }

  lemma OneClassicInk(b: Block)
    ensures ClassicInks([b]) == ClassicInk(b)
  {
    assert [b][1..] == [];
    assert ClassicInk(b) + [] == ClassicInk(b);
  }

  // Without tables, what the runs show.
  lemma ShownIsClassicInk(blocks: seq<Block>, runs: seq<Run>, readers: Readers)
    requires Shown(blocks, runs, readers) && forall b | b in blocks :: !b.TableBlock?
    ensures ClassicInks(blocks) == RunsInk(runs, readers, true)
  {
    hide BlockPieces, RunPieces, RunInk, ClassicInk;
    WithoutRecords(blocks);
    BlocksShowTheirPieces(blocks);
    RunsShowTheirInk(runs, readers);
  }

  lemma FlushInk(p: Progress, depth: nat, readers: Readers)
    requires !p.ctx.bounded
    ensures var f := FlushInlineRun(p, depth, readers);
            f.run == [] && ClassicInks(f.blocks) == ClassicInks(p.blocks) + RunsInk(PendingRun(p.run), readers, true)
  {
    hide Shown, ParseInline, ClassicInks, RunsInk;
    var f := FlushInlineRun(p, depth, readers);
    var added := f.blocks[|p.blocks|..];
    FlushShown(p, depth, readers);
    FlushedPart(p, depth, readers);
    ShownIsClassicInk(added, PendingRun(p.run), readers);
    ClassicInksConcat(p.blocks, added);
  }

  lemma FlushedPart(p: Progress, depth: nat, readers: Readers)
    requires !p.ctx.bounded
    ensures var f := FlushInlineRun(p, depth, readers);
            && p.blocks <= f.blocks && f.blocks == p.blocks + f.blocks[|p.blocks|..]
            && forall b | b in f.blocks[|p.blocks|..] :: b.ParagraphBlock?
  {
    hide ParseInline;
  }

  lemma {:induction false} VisitNodesText(
    nodes: seq<Node>, p: Progress, depth: nat, of: Node -> string, readers: Readers)
    requires !p.ctx.bounded && forall t :: of(t) == TableInk(t, readers)
    ensures ClassicInks(FlushInlineRun(VisitNodes(nodes, p, depth, readers), depth, readers).blocks) ==
            ClassicInks(p.blocks) + TreeText(nodes, p.run, of, readers)
    decreases nodes, 3
  {
    hide ClassicInks, RunsInk, ElementBlocks, ElementText, FlushInlineRun, PushBlocks, TableInk;
    if nodes == [] {
      FlushInk(p, depth, readers);
    } else if OpensBlock(nodes[0]) {
      var q := VisitNode(nodes[0], p, depth, readers);
      VisitBlockText(nodes[0], p, depth, of, readers);
      VisitNodesText(nodes[1..], q, depth, of, readers);
      var before, run := ClassicInks(p.blocks), RunsInk(PendingRun(p.run), readers, true);
      var own, later := ElementText(nodes[0], of, readers), TreeText(nodes[1..], [], of, readers);
      assert before + (run + own) + later == before + (run + own + later);
    } else {
      VisitNodesText(nodes[1..], VisitNode(nodes[0], p, depth, readers), depth, of, readers);
    }
  }

  lemma {:induction false} VisitBlockText(node: Node, p: Progress, depth: nat, of: Node -> string, readers: Readers)
    requires !p.ctx.bounded && OpensBlock(node) && forall t :: of(t) == TableInk(t, readers)
    ensures var q := VisitNode(node, p, depth, readers);
            && q.run == []
            && ClassicInks(q.blocks) ==
               ClassicInks(p.blocks) + (RunsInk(PendingRun(p.run), readers, true) + ElementText(node, of, readers))
    decreases node, 2
  {
    hide ClassicInks, RunsInk, ElementBlocks, ElementText, FlushInlineRun, PushBlocks, TableInk;
    var flushed := FlushInlineRun(p, depth, readers);
    var blocks := ElementBlocks(node, p.ctx, depth, readers).0;
    FlushInk(p, depth, readers);
    ElementBlocksText(node, p.ctx, depth, of, readers);
    PushedBlocks(blocks, flushed);
    ClassicInksConcat(flushed.blocks, blocks);
    var before, run := ClassicInks(p.blocks), RunsInk(PendingRun(p.run), readers, true);
    assert before + run + ElementText(node, of, readers) == before + (run + ElementText(node, of, readers));
  }

  lemma {:induction false} ElementBlocksText(
    node: Node, ctx: Context, depth: nat, of: Node -> string, readers: Readers)
    requires !ctx.bounded && node.Element? && forall t :: of(t) == TableInk(t, readers)
    ensures ClassicInks(ElementBlocks(node, ctx, depth, readers).0) == ElementText(node, of, readers)
    decreases node, 1
  {
    hide ParseInline, CollectText, ParseItems, ParseTableElement, IsDataTable, ParseBlocks, TreeText, Shown,
         ClassicInks, RunsInk, ElementRuns, TableInk;
    if node.name.Table? {
      TableText(node, ctx, depth + 1, of, readers);
    } else if IsWrapper(node) {
      ParseBlocksText(node.children, ctx, depth + 1, of, readers);
    } else {
      ElementBlocksShown(node, ctx, depth, readers);
      ShownIsClassicInk(ElementBlocks(node, ctx, depth, readers).0, ElementRuns(node, readers), readers);
    }
  }

  /**
   * For every tree, parsed without limits: the classic ink of the blocks is the
   * ink of the tree in document order, with every table of records in place of
   * its header row showing the labels of its fields.
   */
  lemma {:induction false} ParseBlocksText(
    nodes: seq<Node>, ctx: Context, depth: nat, of: Node -> string, readers: Readers)
    requires !ctx.bounded && forall t :: of(t) == TableInk(t, readers)
    ensures ClassicInks(ParseBlocks(nodes, ctx, depth, readers).0) == TreeText(nodes, [], of, readers)
    decreases nodes, 4
  {
    hide VisitNodes, FlushInlineRun, TreeText, TableInk;
    VisitNodesText(nodes, Progress([], [], ctx), depth, of, readers);
    assert ClassicInks([]) + TreeText(nodes, [], of, readers) == TreeText(nodes, [], of, readers);
  }

  lemma {:induction false} TableText(table: Node, ctx: Context, depth: nat, of: Node -> string, readers: Readers)
    requires !ctx.bounded && table.Element? && table.name.Table? && forall t :: of(t) == TableInk(t, readers)
    ensures ClassicInks(ParseTableElement(table, ctx, depth, readers).0) == ElementText(table, of, readers)
    decreases table, 0
  {
    hide IsDataTable, ParseTableElement, ClassicInks, TableInk, LayoutText, FlattenLayoutTable;
    if IsDataTable(table, readers) {
      DataTableText(table, ctx, depth, readers);
    } else {
      OtherTablesAreLayout(table, ctx, depth, readers);
      LayoutTextLaw(table.children, ctx, depth + 1, of, readers);
    }
  }

  // A data table is the one block that its rows and its caption make anywhere.
  lemma DataTableBlock(table: Node, ctx: Context, depth: nat, readers: Readers)
    requires !ctx.bounded && table.Element? && IsDataTable(table, readers)
    ensures RowsOf(table, readers) != []
    ensures ParseTableElement(table, ctx, depth, readers).0 == [TableBlock(TableOf(table, readers))]
  {
    hide ParseRows, TextRows, Columns, BuildTable, RemoveEmptyUnspannedColumns, ParseCaption, FlattenLayoutTable;
    var rows := DirectTableRows(table.children, true);
    var parsed := ParseRows(rows, ctx, depth + 1, readers).0;
    NestedTableIsBelow(table.children, ctx, depth + 1);
    ParseRowsShown(rows, ctx, depth + 1, readers);
    SameCount(parsed, TextRows(rows, readers), readers);
    ColumnsAgree(parsed, TextRows(rows, readers), readers);
    ParseRowsAnywhere(rows, ctx, depth + 1, FREE, 0, readers);
    ParseCaptionAnywhere(table.children, ctx, depth + 1, FREE, 0, readers);
  }

  lemma DataTableText(table: Node, ctx: Context, depth: nat, readers: Readers)
    requires !ctx.bounded && table.Element? && IsDataTable(table, readers)
    ensures ClassicInks(ParseTableElement(table, ctx, depth, readers).0) == TableInk(table, readers)
  {
    hide ParseTableElement, TableOf, RowsOf, ClassicInks, ClassicInk;
    DataTableBlock(table, ctx, depth, readers);
    OneClassicInk(TableBlock(TableOf(table, readers)));
  }

  lemma {:induction false} LayoutTextLaw(
    children: seq<Node>, ctx: Context, depth: nat, of: Node -> string, readers: Readers)
    requires !ctx.bounded && forall t :: of(t) == TableInk(t, readers)
    ensures ClassicInks(FlattenLayoutTable(children, ctx, depth, readers).0) == LayoutText(children, of, readers)
    decreases children, 6
  {
    hide ClassicInks, FlattenCell, LayoutCellText, FlattenRows, LayoutRowsText, TableInk;
    if DirectTableRows(children, true) == [] {
      LayoutCellTextLaw(children, ctx, depth, of, readers);
    } else {
      LayoutRowsTextLaw(children, true, ctx, depth, of, readers);
    }
  }

  lemma NoClassicInk()
    ensures ClassicInks([]) == []
  {
  }

  lemma {:induction false} LayoutRowsTextLaw(
    children: seq<Node>, groups: bool, ctx: Context, depth: nat, of: Node -> string, readers: Readers)
    requires !ctx.bounded && forall t :: of(t) == TableInk(t, readers)
    ensures ClassicInks(FlattenRows(children, groups, ctx, depth, readers).0) ==
            LayoutRowsText(children, groups, of, readers)
    decreases children, 5
  {
    hide ClassicInks, FlattenCells, LayoutCellsText, TableInk;
    NoClassicInk();
    if children != [] {
      var first := children[0];
      var blocks: seq<Block> := [];
      if first.Element? && first.name.Tr? {
        blocks := FlattenCells(first.children, ctx, depth, readers).0;
        LayoutCellsTextLaw(first.children, ctx, depth, of, readers);
      } else if groups && IsRowGroup(first) {
        blocks := FlattenRows(first.children, false, ctx, depth, readers).0;
        LayoutRowsTextLaw(first.children, false, ctx, depth, of, readers);
      }
      LayoutRowsTextLaw(children[1..], groups, ctx, depth, of, readers);
      ClassicInksConcat(blocks, FlattenRows(children[1..], groups, ctx, depth, readers).0);
    }
  }

  lemma {:induction false} LayoutCellsTextLaw(
    children: seq<Node>, ctx: Context, depth: nat, of: Node -> string, readers: Readers)
    requires !ctx.bounded && forall t :: of(t) == TableInk(t, readers)
    ensures ClassicInks(FlattenCells(children, ctx, depth, readers).0) == LayoutCellsText(children, of, readers)
    decreases children, 5
  {
    hide ClassicInks, FlattenCell, LayoutCellText, TableInk;
    NoClassicInk();
    if children != [] {
      var blocks: seq<Block> := [];
      if IsCell(children[0]) {
        blocks := FlattenCell(children[0].children, ctx, depth, readers).0;
        LayoutCellTextLaw(children[0].children, ctx, depth, of, readers);
      }
      LayoutCellsTextLaw(children[1..], ctx, depth, of, readers);
      ClassicInksConcat(blocks, FlattenCells(children[1..], ctx, depth, readers).0);
    }
  }

  lemma {:induction false} LayoutCellTextLaw(
    content: seq<Node>, ctx: Context, depth: nat, of: Node -> string, readers: Readers)
    requires !ctx.bounded && forall t :: of(t) == TableInk(t, readers)
    ensures ClassicInks(FlattenCell(content, ctx, depth, readers).0) == LayoutCellText(content, of, readers)
    decreases content, 5
  {
    hide ParseBlocks, TreeRuns, TreeText, ParseInline, InlineOf, Shown, MakesBlocks, ClassicInks, TableInk, InlineInk;
    var blocks, runs := ParseBlocks(content, ctx, depth + 1, readers).0, TreeRuns(content, [], readers);
    ParseBlocksText(content, ctx, depth + 1, of, readers);
    ParseBlocksShown(content, ctx, depth + 1, readers);
    BlocksAreMade(blocks, runs, readers);
    if blocks == [] {
      InlineOfAnywhere(content, ctx, depth + 1, readers);
      ShownContent(ParagraphBlock(InlineOf(content, readers)), content, readers);
      ShownIsClassicInk(FlattenCell(content, ctx, depth, readers).0, [Inlined(content)], readers);
      OneRunInk(Inlined(content), readers);
    }
  }

  lemma OneRunInk(run: Run, readers: Readers)
    ensures RunsInk([run], readers, true) == RunInk(run, readers, true)
  {
    assert [run][1..] == [];
    assert RunInk(run, readers, true) + [] == RunInk(run, readers, true);
  }

  // ---- What a tree of tables comes to -----------------------------------------------------------

  lemma {:induction false} RunsInkJoins(a: seq<Run>, b: seq<Run>, readers: Readers)
    ensures RunsInk(a + b, readers, true) == RunsInk(a, readers, true) + RunsInk(b, readers, true)
  {
    RunsInkConcat(a, b, readers, true);
  }

  /** With all cells of every data table the text of a tree is its ink. */
  lemma {:induction false} WholeTextIsInk(nodes: seq<Node>, pending: seq<Node>, of: Node -> string, readers: Readers)
    requires forall t :: of(t) == WholeInk(t, readers)
    ensures TreeText(nodes, pending, of, readers) == RunsInk(TreeRuns(nodes, pending, readers), readers, true)
    decreases nodes, 4
  {
    hide ElementText, ElementRuns, RunsInk, WholeInk;
    if nodes != [] {
      if OpensBlock(nodes[0]) {
        var run, own := PendingRun(pending), ElementRuns(nodes[0], readers);
        WholeElementIsInk(nodes[0], of, readers);
        WholeTextIsInk(nodes[1..], [], of, readers);
        RunsInkJoins(run + own, TreeRuns(nodes[1..], [], readers), readers);
        RunsInkJoins(run, own, readers);
      } else {
        WholeTextIsInk(nodes[1..], if JoinsRun(nodes[0]) then pending + [nodes[0]] else pending, of, readers);
      }
    }
  }

  lemma {:induction false} WholeElementIsInk(node: Node, of: Node -> string, readers: Readers)
    requires node.Element? && forall t :: of(t) == WholeInk(t, readers)
    ensures ElementText(node, of, readers) == RunsInk(ElementRuns(node, readers), readers, true)
    decreases node, 1
  {
    hide TreeText, TreeRuns, RunsInk, LayoutText, LayoutRuns, IsDataTable, CaptionRuns, RowRuns;
    if node.name.Table? {
      WholeLayoutIsInk(node.children, of, readers);
    } else if IsWrapper(node) {
      WholeTextIsInk(node.children, [], of, readers);
    }
  }

  lemma {:induction false} WholeLayoutIsInk(children: seq<Node>, of: Node -> string, readers: Readers)
    requires forall t :: of(t) == WholeInk(t, readers)
    ensures LayoutText(children, of, readers) == RunsInk(LayoutRuns(children, readers), readers, true)
    decreases children, 6
  {
    hide LayoutCellText, LayoutCellRuns, LayoutRowsText, LayoutRowRuns, RunsInk, WholeInk;
    if DirectTableRows(children, true) == [] {
      WholeCellIsInk(children, of, readers);
    } else {
      WholeRowsAreInk(children, true, of, readers);
    }
  }

  lemma NoRunsInk(readers: Readers)
    ensures RunsInk([], readers, true) == []
  {
  }

  lemma {:induction false} WholeRowsAreInk(children: seq<Node>, groups: bool, of: Node -> string, readers: Readers)
    requires forall t :: of(t) == WholeInk(t, readers)
    ensures LayoutRowsText(children, groups, of, readers) ==
            RunsInk(LayoutRowRuns(children, groups, readers), readers, true)
    decreases children, 5
  {
    hide LayoutCellsText, LayoutCellsRuns, RunsInk, WholeInk;
    NoRunsInk(readers);
    if children != [] {
      var first := children[0];
      var runs: seq<Run> := [];
      if first.Element? && first.name.Tr? {
        runs := LayoutCellsRuns(first.children, readers);
        WholeCellsAreInk(first.children, of, readers);
      } else if groups && IsRowGroup(first) {
        runs := LayoutRowRuns(first.children, false, readers);
        WholeRowsAreInk(first.children, false, of, readers);
      }
      WholeRowsAreInk(children[1..], groups, of, readers);
      RunsInkJoins(runs, LayoutRowRuns(children[1..], groups, readers), readers);
    }
  }

  lemma {:induction false} WholeCellsAreInk(children: seq<Node>, of: Node -> string, readers: Readers)
    requires forall t :: of(t) == WholeInk(t, readers)
    ensures LayoutCellsText(children, of, readers) == RunsInk(LayoutCellsRuns(children, readers), readers, true)
    decreases children, 5
  {
    hide LayoutCellText, LayoutCellRuns, RunsInk, WholeInk;
    NoRunsInk(readers);
    if children != [] {
      var runs: seq<Run> := [];
      if IsCell(children[0]) {
        runs := LayoutCellRuns(children[0].children, readers);
        WholeCellIsInk(children[0].children, of, readers);
      }
      WholeCellsAreInk(children[1..], of, readers);
      RunsInkJoins(runs, LayoutCellsRuns(children[1..], readers), readers);
    }
  }

  lemma {:induction false} WholeCellIsInk(content: seq<Node>, of: Node -> string, readers: Readers)
    requires forall t :: of(t) == WholeInk(t, readers)
    ensures LayoutCellText(content, of, readers) == RunsInk(LayoutCellRuns(content, readers), readers, true)
    decreases content, 5
  {
    hide TreeText, TreeRuns, MakesBlocks, RunsInk, WholeInk, InlineInk;
    WholeTextIsInk(content, [], of, readers);
    OneRunInk(Inlined(content), readers);
  }

  ghost predicate TablesWithin(f: Node -> string, g: Node -> string, readers: Readers) {
    forall t: Node | t.Element? && IsDataTable(t, readers) :: Within(f(t), g(t))
  }

  // Where every data table shows at least as much, so does the tree.
  lemma {:induction false} TreeTextWithin(
    nodes: seq<Node>, pending: seq<Node>, f: Node -> string, g: Node -> string, readers: Readers)
    requires TablesWithin(f, g, readers)
    ensures Within(TreeText(nodes, pending, f, readers), TreeText(nodes, pending, g, readers))
    decreases nodes, 4
  {
    hide ElementText, RunsInk, Within, TablesWithin;
    var run := RunsInk(PendingRun(pending), readers, true);
    WithinItself(run);
    if nodes != [] {
      if OpensBlock(nodes[0]) {
        ElementTextWithin(nodes[0], f, g, readers);
        TreeTextWithin(nodes[1..], [], f, g, readers);
        WithinConcat(run, run, ElementText(nodes[0], f, readers), ElementText(nodes[0], g, readers));
        WithinConcat(run + ElementText(nodes[0], f, readers), run + ElementText(nodes[0], g, readers),
                     TreeText(nodes[1..], [], f, readers), TreeText(nodes[1..], [], g, readers));
      } else {
        TreeTextWithin(nodes[1..], if JoinsRun(nodes[0]) then pending + [nodes[0]] else pending, f, g, readers);
      }
    }
  }

  lemma {:induction false} ElementTextWithin(node: Node, f: Node -> string, g: Node -> string, readers: Readers)
    requires node.Element? && TablesWithin(f, g, readers)
    ensures Within(ElementText(node, f, readers), ElementText(node, g, readers))
    decreases node, 1
  {
    hide TreeText, ElementRuns, RunsInk, LayoutText, IsDataTable, Within;
    WithinItself(RunsInk(ElementRuns(node, readers), readers, true));
    if node.name.Table? {
      LayoutTextWithin(node.children, f, g, readers);
    } else if IsWrapper(node) {
      TreeTextWithin(node.children, [], f, g, readers);
    }
  }

  lemma {:induction false} LayoutTextWithin(
    children: seq<Node>, f: Node -> string, g: Node -> string, readers: Readers)
    requires TablesWithin(f, g, readers)
    ensures Within(LayoutText(children, f, readers), LayoutText(children, g, readers))
    decreases children, 6
  {
    hide LayoutCellText, LayoutRowsText, Within, TablesWithin;
    if DirectTableRows(children, true) == [] {
      LayoutCellTextWithin(children, f, g, readers);
    } else {
      LayoutRowsTextWithin(children, true, f, g, readers);
    }
  }

  lemma {:induction false} LayoutRowsTextWithin(
    children: seq<Node>, groups: bool, f: Node -> string, g: Node -> string, readers: Readers)
    requires TablesWithin(f, g, readers)
    ensures Within(LayoutRowsText(children, groups, f, readers), LayoutRowsText(children, groups, g, readers))
    decreases children, 5
  {
    hide LayoutCellsText, Within, TablesWithin;
    WithinItself([]);
    if children != [] {
      var first := children[0];
      var a: string, b: string := [], [];
      if first.Element? && first.name.Tr? {
        a, b := LayoutCellsText(first.children, f, readers), LayoutCellsText(first.children, g, readers);
        LayoutCellsTextWithin(first.children, f, g, readers);
      } else if groups && IsRowGroup(first) {
        a, b := LayoutRowsText(first.children, false, f, readers), LayoutRowsText(first.children, false, g, readers);
        LayoutRowsTextWithin(first.children, false, f, g, readers);
      }
      LayoutRowsTextWithin(children[1..], groups, f, g, readers);
      WithinConcat(a, b, LayoutRowsText(children[1..], groups, f, readers),
                   LayoutRowsText(children[1..], groups, g, readers));
    }
  }

  lemma {:induction false} LayoutCellsTextWithin(
    children: seq<Node>, f: Node -> string, g: Node -> string, readers: Readers)
    requires TablesWithin(f, g, readers)
    ensures Within(LayoutCellsText(children, f, readers), LayoutCellsText(children, g, readers))
    decreases children, 5
  {
    hide LayoutCellText, Within, TablesWithin;
    WithinItself([]);
    if children != [] {
      var a: string, b: string := [], [];
      if IsCell(children[0]) {
        a, b := LayoutCellText(children[0].children, f, readers), LayoutCellText(children[0].children, g, readers);
        LayoutCellTextWithin(children[0].children, f, g, readers);
      }
      LayoutCellsTextWithin(children[1..], f, g, readers);
      WithinConcat(a, b, LayoutCellsText(children[1..], f, readers), LayoutCellsText(children[1..], g, readers));
    }
  }

  lemma {:induction false} LayoutCellTextWithin(
    content: seq<Node>, f: Node -> string, g: Node -> string, readers: Readers)
    requires TablesWithin(f, g, readers)
    ensures Within(LayoutCellText(content, f, readers), LayoutCellText(content, g, readers))
    decreases content, 5
  {
    hide TreeText, TreeRuns, MakesBlocks, InlineInk, Within, TablesWithin;
    WithinItself(InlineInk(content, readers, true));
    TreeTextWithin(content, [], f, g, readers);
  }

  // ---- What a data table keeps --------------------------------------------------------------------

  lemma {:induction false} RecordsShowTheirCells(
    rows: seq<seq<Cell>>, places: seq<seq<Layout.Rect>>, headers: seq<Cell>, headerPlaces: seq<Layout.Rect>)
    requires |rows| == |places| && |headers| == |headerPlaces|
    requires forall i | 0 <= i < |rows| :: |rows[i]| == |places[i]|
    ensures Within(Ink(TableContents(rows)), RecordsInk(rows, places, headers, headerPlaces))
  {
    hide RecordInk, Within, Ink, CellContents;
    if rows == [] {
      assert Ink(TableContents([])) == [] by { NoCellsInk(); }
      WithinNothing(RecordsInk(rows, places, headers, headerPlaces));
    } else {
      RecordShowsItsCells(rows[0], places[0], headers, headerPlaces);
      RecordsShowTheirCells(rows[1..], places[1..], headers, headerPlaces);
      InkConcat(CellContents(rows[0]), TableContents(rows[1..]));
      WithinConcat(Ink(CellContents(rows[0])), RecordInk(rows[0], places[0], headers, headerPlaces),
                   Ink(TableContents(rows[1..])), RecordsInk(rows[1..], places[1..], headers, headerPlaces));
    }
  }

  lemma NoCellsInk()
    ensures Ink(TableContents([])) == [] && Ink([]) == []
  {
  }

  lemma CellsBehindFirst(row: seq<Cell>, nodes: seq<Node>, readers: Readers)
    requires CellsOfNodes(row, nodes, readers) && row != []
    ensures CellsOfNodes(row[1..], nodes[1..], readers)
  {
    hide CellOfNode;
  }

  lemma {:induction false} CellRowHasInk(row: seq<Cell>, nodes: seq<Node>, readers: Readers)
    requires CellsOfNodes(row, nodes, readers)
    ensures Ink(CellContents(row)) == CellRowInk(nodes, readers)
  {
    hide InlineOf, InlineInk, HasInk, NonSpace;
    if row == [] {
      NoCellsInk();
    } else {
      assert CellOfNode(row[0], nodes[0], readers);
      CellsBehindFirst(row, nodes, readers);
      CellRowHasInk(row[1..], nodes[1..], readers);
      InlineOfInk(nodes[0].children, readers);
      assert CellContents(row)[1..] == CellContents(row[1..]);
    }
  }

  lemma InlineOfInk(nodes: seq<Node>, readers: Readers)
    ensures NonSpace(InlineOf(nodes, readers).text) == InlineInk(nodes, readers, true)
  {
    ParseInlineInk(nodes, FREE, 0, true, true, readers);
  }

  lemma {:induction false} CellRowsHaveInk(rows: seq<seq<Cell>>, nodes: seq<seq<Node>>, readers: Readers)
    requires RowsOfNodes(rows, nodes, readers)
    ensures Ink(TableContents(rows)) == CellsInk(nodes, readers)
  {
    hide CellsOfNodes, CellContents, CellRowInk, Ink;
    if rows == [] {
      NoCellsInk();
    } else {
      CellRowHasInk(rows[0], nodes[0], readers);
      CellRowsHaveInk(rows[1..], nodes[1..], readers);
      InkConcat(CellContents(rows[0]), TableContents(rows[1..]));
    }
  }

  // Dropping blank columns keeps the ink of the rows after the first.
  lemma KeptRowsInk(rows: seq<seq<Cell>>)
    requires rows != []
    ensures Ink(TableContents(RemoveEmptyUnspannedColumns(rows)[1..])) == Ink(TableContents(rows[1..]))
  {
    hide RemoveEmptyUnspannedColumns, Filled, TableContents, Ink, PiecesInk;
    var kept := RemoveEmptyUnspannedColumns(rows);
    forall i | 0 <= i < |rows| - 1
      ensures Filled(CellContents(kept[1..][i])) == Filled(CellContents(rows[1..][i]))
    {
      KeptRowShown(rows, i + 1);
    }
    SameRowsShowSame(kept[1..], rows[1..]);
    FilledInk(TableContents(kept[1..]));
    FilledInk(TableContents(rows[1..]));
  }

  lemma RecordsKeepTheirRows(rows: seq<seq<Cell>>, caption: Option<Inline>, readers: Readers)
    requires rows != [] && ShownAsRecords(BuildTable(rows, caption, readers))
    ensures var table := BuildTable(rows, caption, readers);
            table.rows[1..] == rows[1..] && table.caption == caption
  {
    hide IsHeaderRow, IsKeyValueTable, CountLeadingHeaderRows, MarkHeaders, Layout.LogicalColumns;
  }

  lemma CaptionHasInk(table: Node, readers: Readers)
    requires table.Element?
    ensures RunsInk(CaptionRuns(table.children), readers, true) == CaptionInk(CaptionOf(table, readers))
  {
    hide ParseInline, InlineInk, NonSpace;
    NoRunsInk(readers);
    var caption := FindCaption(table.children);
    if caption.Some? {
      OneRunInk(Inlined(caption.value.children), readers);
      ParseInlineInk(caption.value.children, FREE, 0, true, true, readers);
    }
  }

  /** A data table shows its caption and all its cells, or, as records, those of all rows but the first with text. */
  lemma BodyWithinTable(table: Node, readers: Readers)
    requires table.Element? && IsDataTable(table, readers)
    ensures Within(BodyInk(table, readers), TableInk(table, readers))
    ensures !IsRecordTable(table, readers) ==> TableInk(table, readers) == WholeInk(table, readers)
  {
    hide ParseTableElement, IsDataTable, Shown, TableOf, RowsOf, RunsInk, Within, BlockInk, CellsInk, RowsInk,
         CaptionInk;
    DataTableBlock(table, FREE, 0, readers);
    if IsRecordTable(table, readers) {
      RecordBodyWithinTable(table, readers);
    } else {
      var b := TableBlock(TableOf(table, readers));
      var runs := CaptionRuns(table.children) + RowRuns(DirectTableRows(table.children, true));
      DataTableShown(table, FREE, 0, readers);
      ShownInk([b], runs, readers);
      OneBlockShowsInk(b);
      WithinItself(WholeInk(table, readers));
    }
  }

  lemma ShownInk(blocks: seq<Block>, runs: seq<Run>, readers: Readers)
    requires Shown(blocks, runs, readers)
    ensures BlocksInk(blocks) == RunsInk(runs, readers, true)
  {
    BlocksShowTheirPieces(blocks);
    RunsShowTheirInk(runs, readers);
  }

  lemma OneBlockShowsInk(b: Block)
    ensures BlocksInk([b]) == BlockInk(b)
  {
    assert [b][1..] == [];
    assert BlockInk(b) + [] == BlockInk(b);
  }

  lemma RecordBodyWithinTable(table: Node, readers: Readers)
    requires table.Element? && IsRecordTable(table, readers)
    ensures Within(BodyInk(table, readers), TableInk(table, readers))
  {
    hide RunsInk, Within, CaptionInk, CellsInk, CaptionRuns, TextRows, ParseRows, ParseCaption, BuildTable,
         RemoveEmptyUnspannedColumns, RecordsInk, Layout.Place, Ink, TableContents, RowsOfNodes;
    var parsed, model := RowsOf(table, readers), TableOf(table, readers);
    var direct := DirectTableRows(table.children, true);
    var nodes := TextRows(direct, readers);
    var places := Layout.Place(TableSpans(model.rows));
    var caption := CaptionInk(CaptionOf(table, readers));
    CaptionHasInk(table, readers);
    ParseRowsShown(direct, FREE, 0, readers);
    RowsBehindFirst(parsed, nodes, readers);
    CellRowsHaveInk(parsed[1..], nodes[1..], readers);
    KeptRowsInk(parsed);
    RecordsKeepTheirRows(RemoveEmptyUnspannedColumns(parsed), CaptionOf(table, readers), readers);
    RecordsShowTheirCells(model.rows[1..], places[1..], model.rows[0], places[0]);
    WithinItself(caption);
    WithinConcat(caption, caption, CellsInk(nodes[1..], readers),
                 RecordsInk(model.rows[1..], places[1..], model.rows[0], places[0]));
  }

  lemma RowsBehindFirst(rows: seq<seq<Cell>>, nodes: seq<seq<Node>>, readers: Readers)
    requires RowsOfNodes(rows, nodes, readers) && rows != []
    ensures nodes != [] && RowsOfNodes(rows[1..], nodes[1..], readers)
  {
    hide CellsOfNodes;
  }

  // ---- The document ---------------------------------------------------------------------------------

  /**
   * For every tree that no limit cut short: the classic form shows the ink of
   * the tree in document order, where tables of records show the labels of
   * their fields in place of their header rows, so all of the ink but those
   * header rows. Without such tables it shows all of it, and all text of a tree
   * that has none in a lost place.
   */
  lemma ClassicShowsTheTree(children: seq<Node>, sourceTruncated: bool, domTruncated: bool, readers: Readers)
    requires RenderDocument(children, sourceTruncated, domTruncated, readers).reason != Some(InputLimit)
    ensures var shown := Visible(RenderDocument(children, sourceTruncated, domTruncated, readers).classic);
            && Within(TreeText(children, [], t => TableInk(t, readers), readers), shown)
            && Within(TreeText(children, [], t => BodyInk(t, readers), readers), shown)
            && (NoRecords(WholeDocument(children, readers)) ==> Within(TreeInk(children, readers, true), shown))
            && (NoRecords(WholeDocument(children, readers)) && Whole(children, readers) ==>
                  Within(AllText(children), shown))
  {
    hide ParseBlocks, RenderClassic, TreeInk, StatsOf, HasLinks, RenderRich, Within, Whole, AllText, ClassicInks,
         TreeText, TableInk, BodyInk, IsDataTable;
    var whole := WholeDocument(children, readers);
    var shown := Visible(RenderDocument(children, sourceTruncated, domTruncated, readers).classic);
    var f, g := t => BodyInk(t, readers), t => TableInk(t, readers);
    UntruncatedIsWhole(children, sourceTruncated, domTruncated, readers);
    ClassicLosesNothing(whole);
    ParseBlocksText(children, FreshContext(false, false).Unbounded(), 0, g, readers);
    forall t: Node | t.Element? && IsDataTable(t, readers) ensures Within(f(t), g(t)) { BodyWithinTable(t, readers); }
    TreeTextWithin(children, [], f, g, readers);
    WithinTransitive(TreeText(children, [], f, readers), TreeText(children, [], g, readers), shown);
    if NoRecords(whole) {
      ParseBlocksInk(children, FreshContext(false, false).Unbounded(), 0, readers);
      WithoutRecords(whole);
      if Whole(children, readers) {
        ShowsAllTextExactlyWhen(children, readers);
        TextWithinInk(children, readers);
        WithinTransitive(AllText(children), TreeInk(children, readers, true), shown);
      }
    }
  }
}
