/**
 * Which parts of a tree are shown, in which order: the runs of nodes that are
 * rendered as inline content, the preformatted blocks and the rules, read off
 * the tree. Without limits the block parser shows exactly these.
 */
module HtmlRuns {
  import opened HtmlTokens
  import opened HtmlNormalize
  import opened HtmlLinks
  import opened HtmlDom
  import opened HtmlInline
  import opened HtmlBlocks
  import opened HtmlRender
  import opened HtmlInk
  import Layout = TableLayout

  // ---- Tables, read off the tree --------------------------------------------------------

  predicate TableBelow(children: seq<Node>) {
    children != [] &&
    (TableBelow(children[1..])
     || (children[0].Element? && (children[0].name.Table? || TableBelow(children[0].children))))
  }

  function CellsOf(children: seq<Node>): (cells: seq<Node>)
    ensures forall c | c in cells :: IsCell(c)
  {
    if children == [] then [] else (if IsCell(children[0]) then [children[0]] else []) + CellsOf(children[1..])
  }

  // The rows that one child of a table contributes.
  function RowsHere(node: Node, groups: bool): seq<Node> {
    if node.Element? && node.name.Tr? then [node]
    else if groups && IsRowGroup(node) then DirectTableRows(node.children, false)
    else []
  }

  lemma RowsFromFirst(children: seq<Node>, groups: bool)
    requires children != []
    ensures var first := children[0];
            && DirectTableRows(children, groups) == RowsHere(first, groups) + DirectTableRows(children[1..], groups)
            && FindCaption(children) ==
               if first.Element? && first.name.Caption? then Some(first) else FindCaption(children[1..])
  {
  }

  lemma NoRows(groups: bool)
    ensures DirectTableRows([], groups) == [] && FindCaption([]).None?
  {
  }

  predicate HasInk(node: Node, readers: Readers) {
    node.Element? && InlineInk(node.children, readers, true) != []
  }

  // The cells of the rows in which some cell shows text.
  function TextRows(rows: seq<Node>, readers: Readers): (r: seq<seq<Node>>)
    requires forall row | row in rows :: row.Element?
    ensures forall cells | cells in r :: forall c | c in cells :: c.Element?
  {
    if rows == [] then []
    else
      var cells := CellsOf(rows[0].children);
      (if exists c | c in cells :: HasInk(c, readers) then [cells] else []) + TextRows(rows[1..], readers)
  }

  function SpansOfNode(cell: Node, readers: Readers): Layout.Spans {
    if cell.Element? then
      Layout.Spans(BoundedSpan(cell.attrs.colspan, readers), BoundedSpan(cell.attrs.rowspan, readers))
    else Layout.Spans(1, 1)
  }

  function NodeSpans(rows: seq<seq<Node>>, readers: Readers): (r: seq<seq<Layout.Spans>>)
    ensures |r| == |rows| && forall i | 0 <= i < |r| :: |r[i]| == |rows[i]|
  {
    seq(|rows|, i requires 0 <= i < |rows| =>
      seq(|rows[i]|, j requires 0 <= j < |rows[i]| => SpansOfNode(rows[i][j], readers)))
  }

  const UNIT := Layout.Spans(1, 1)

  predicate SomeSpan(rows: seq<seq<Node>>, readers: Readers) {
    exists row | row in rows :: exists cell | cell in row :: SpansOfNode(cell, readers) != UNIT
  }

  function Longest(rows: seq<seq<Node>>): nat {
    if rows == [] then 0 else Layout.Max(|rows[0]|, Longest(rows[1..]))
  }

  predicate SomeText(rows: seq<seq<Node>>, index: nat, readers: Readers) {
    exists row | row in rows :: index < |row| && HasInk(row[index], readers)
  }

  // The number of columns from `index` on in which some row shows text.
  function TextColumns(rows: seq<seq<Node>>, index: nat, readers: Readers): nat
    decreases Longest(rows) - index
  {
    if index >= Longest(rows) then 0
    else
      (if SomeText(rows, index, readers) then 1 else 0)
        + TextColumns(rows, index + 1, readers)
  }

  // Spanned tables keep all columns; others only those with text.
  function Columns(rows: seq<seq<Node>>, readers: Readers): nat {
    if SomeSpan(rows, readers) then Layout.LogicalColumns(NodeSpans(rows, readers)) else TextColumns(rows, 0, readers)
  }

  // Whether the table is shown as a table, and not as the blocks of its cells.
  predicate IsDataTable(table: Node, readers: Readers)
    requires table.Element?
  {
    && !table.attrs.presentation && !TableBelow(table.children)
    && var rows := TextRows(DirectTableRows(table.children, true), readers);
       rows != [] && Columns(rows, readers) > 1
  }

  // ---- Runs -------------------------------------------------------------------------------

  datatype Run = Inlined(nodes: seq<Node>) | Verbatim(nodes: seq<Node>) | Rule

  // Elements that start a block of their own.
  predicate StartsBlock(n: TagName)
    ensures StartsBlock(n) <==> IsBlockElement(n)
  {
    match n
    case Address | Article | Aside | Body | Center | Div | Header | Html | MainElement | Nav | Paragraph | Section
       | Heading(_) | Blockquote | Footer | Hr | Ol | Pre | Table | Ul => true
    case _ => false
  }

  // Such an element, or a parent of one.
  predicate OpensBlock(node: Node): (r: bool)
    ensures r ==> node.Element?
    ensures r <==>
            node.Element? && !IsDropped(node.name) && (IsBlockElement(node.name) || ContainsBlockChild(node))
  {
    node.Element? && !IsDropped(node.name) &&
    (StartsBlock(node.name) || exists child | child in node.children :: child.Element? && StartsBlock(child.name))
  }

  predicate JoinsRun(node: Node) {
    if node.Text? then !IsBlank(node.data) else node.Element? && !IsDropped(node.name) && !OpensBlock(node)
  }

  function PendingRun(nodes: seq<Node>): seq<Run> {
    if nodes == [] then [] else [Inlined(nodes)]
  }

  // The runs of sibling nodes, after the inline nodes in `pending`.
  function TreeRuns(nodes: seq<Node>, pending: seq<Node>, readers: Readers): seq<Run>
    decreases nodes, 4
  {
    if nodes == [] then PendingRun(pending)
    else if OpensBlock(nodes[0]) then
      PendingRun(pending) + ElementRuns(nodes[0], readers) + TreeRuns(nodes[1..], [], readers)
    else TreeRuns(nodes[1..], if JoinsRun(nodes[0]) then pending + [nodes[0]] else pending, readers)
  }

  function ElementRuns(node: Node, readers: Readers): seq<Run>
    requires node.Element?
    decreases node, 1
  {
    var name := node.name;
    if name.Pre? then [Verbatim(node.children)]
    else if name.Hr? then [Rule]
    else if name.Ul? || name.Ol? then ItemRuns(node.children)
    else if name.Table? then
      if IsDataTable(node, readers) then CaptionRuns(node.children) + RowRuns(DirectTableRows(node.children, true))
      else LayoutRuns(node.children, readers)
    else if ContainsBlockChild(node) && !name.Heading? && !name.Blockquote? && !name.Footer? then
      TreeRuns(node.children, [], readers)
    else [Inlined(node.children)]
  }

  function ItemRuns(children: seq<Node>): seq<Run> {
    if children == [] then []
    else
      (if children[0].Element? && children[0].name.Li? then [Inlined(children[0].children)] else [])
        + ItemRuns(children[1..])
  }

  function CaptionRuns(children: seq<Node>): seq<Run> {
    var caption := FindCaption(children);
    if caption.Some? then [Inlined(caption.value.children)] else []
  }

  function CellRuns(children: seq<Node>): seq<Run> {
    if children == [] then []
    else (if IsCell(children[0]) then [Inlined(children[0].children)] else []) + CellRuns(children[1..])
  }

  function RowRuns(rows: seq<Node>): seq<Run>
    requires forall r | r in rows :: r.Element?
  {
    if rows == [] then [] else CellRuns(rows[0].children) + RowRuns(rows[1..])
  }

  function LayoutRuns(children: seq<Node>, readers: Readers): seq<Run>
    decreases children, 6
  {
    if DirectTableRows(children, true) == [] then LayoutCellRuns(children, readers)
    else LayoutRowRuns(children, true, readers)
  }

  function LayoutRowRuns(children: seq<Node>, groups: bool, readers: Readers): seq<Run>
    decreases children, 5
  {
    if children == [] then []
    else
      var first := children[0];
      (if first.Element? && first.name.Tr? then LayoutCellsRuns(first.children, readers)
       else if groups && IsRowGroup(first) then LayoutRowRuns(first.children, false, readers)
       else []) + LayoutRowRuns(children[1..], groups, readers)
  }

  function LayoutCellsRuns(children: seq<Node>, readers: Readers): seq<Run>
    decreases children, 5
  {
    if children == [] then []
    else
      (if IsCell(children[0]) then LayoutCellRuns(children[0].children, readers) else [])
        + LayoutCellsRuns(children[1..], readers)
  }

  // A cell used for layout is shown as blocks if it makes any, and as inline content otherwise.
  function LayoutCellRuns(content: seq<Node>, readers: Readers): seq<Run>
    decreases content, 5
  {
    if MakesBlocks(TreeRuns(content, [], readers), readers) then TreeRuns(content, [], readers) else [Inlined(content)]
  }

  predicate MakesBlocks(runs: seq<Run>, readers: Readers) {
    exists run | run in runs :: run.Rule? || RunInk(run, readers, true) != []
  }

  // What runs show, with or without the markers of list items in running text.
  function RunInk(run: Run, readers: Readers, marks: bool): string {
    match run
    case Inlined(nodes) => InlineInk(nodes, readers, marks)
    case Verbatim(nodes) => CollectedInk(nodes)
    case Rule => []
  }

  function RunsInk(runs: seq<Run>, readers: Readers, marks: bool): string {
    if runs == [] then [] else RunInk(runs[0], readers, marks) + RunsInk(runs[1..], readers, marks)
  }

  // What a document shows.
  function TreeInk(nodes: seq<Node>, readers: Readers, marks: bool): string {
    RunsInk(TreeRuns(nodes, [], readers), readers, marks)
  }

  // ---- A parse without limits depends on the nodes only -------------------------------------

  // The context of a parse without limits.
  const FREE := FreshContext(false, false).Unbounded()

  lemma {:induction false} CollectTextAnywhere(nodes: seq<Node>, a: Context, d: nat, b: Context, e: nat, preserve: bool)
    requires !a.bounded && !b.bounded
    ensures CollectText(nodes, a, d, preserve).0 == CollectText(nodes, b, e, preserve).0
    decreases nodes, 1
  {
    CollectPartsAnywhere(nodes, a, d, b, e, preserve);
  }

  lemma {:induction false} CollectPartsAnywhere(
    nodes: seq<Node>, a: Context, d: nat, b: Context, e: nat, preserve: bool)
    requires !a.bounded && !b.bounded
    ensures CollectParts(nodes, a, d, preserve).0 == CollectParts(nodes, b, e, preserve).0
    decreases nodes, 0
  {
    if nodes != [] {
      OwnTextAnywhere(nodes[0], a, d, b, e, preserve);
      CollectPartsAnywhere(nodes[1..], a, d, b, e, preserve);
    }
  }

  lemma {:induction false} OwnTextAnywhere(node: Node, a: Context, d: nat, b: Context, e: nat, preserve: bool)
    requires !a.bounded && !b.bounded
    ensures OwnText(node, a, d, preserve).0 == OwnText(node, b, e, preserve).0
    decreases node, 2
  {
    if node.Element? {
      CollectTextAnywhere(node.children, a, d + 1, b, e + 1, preserve);
    }
  }

  lemma {:induction false} ParseInlineAnywhere(
    nodes: seq<Node>, a: Context, d: nat, b: Context, e: nat, trim: bool, linkify: bool, readers: Readers)
    requires !a.bounded && !b.bounded
    ensures ParseInline(nodes, a, d, trim, linkify, readers).0 == ParseInline(nodes, b, e, trim, linkify, readers).0
    decreases nodes, 1
  {
    hide Combine, LinkifyRuns;
    ExpandNodesAnywhere(nodes, a, d, b, e, linkify, readers);
  }

  lemma {:induction false} ExpandNodesAnywhere(
    nodes: seq<Node>, a: Context, d: nat, b: Context, e: nat, linkify: bool, readers: Readers)
    requires !a.bounded && !b.bounded
    ensures ExpandNodes(nodes, a, d, linkify, readers).0 == ExpandNodes(nodes, b, e, linkify, readers).0
    decreases nodes, 0
  {
    if nodes != [] {
      ExpandInlineNodeAnywhere(nodes[0], a, d, b, e, linkify, readers);
      ExpandNodesAnywhere(nodes[1..], a, d, b, e, linkify, readers);
    }
  }

  lemma {:induction false} ExpandInlineNodeAnywhere(
    node: Node, a: Context, d: nat, b: Context, e: nat, linkify: bool, readers: Readers)
    requires !a.bounded && !b.bounded
    ensures ExpandInlineNode(node, a, d, linkify, readers).0 == ExpandInlineNode(node, b, e, linkify, readers).0
    decreases node, 2
  {
    if node.Element? && IsTransparent(node.name) {
      ExpandNodesAnywhere(node.children, a, d + 1, b, e + 1, linkify, readers);
    } else {
      ParseInlineNodeAnywhere(node, a, d, b, e, linkify, readers);
    }
  }

  lemma {:induction false} ParseInlineNodeAnywhere(
    node: Node, a: Context, d: nat, b: Context, e: nat, linkify: bool, readers: Readers)
    requires !a.bounded && !b.bounded
    ensures ParseInlineNode(node, a, d, linkify, readers).0 == ParseInlineNode(node, b, e, linkify, readers).0
    decreases node, 1
  {
    if node.Element? {
      ParseElementAnywhere(node, a, d, b, e, linkify, readers);
    }
  }

  lemma {:induction false} ParseElementAnywhere(
    node: Node, a: Context, d: nat, b: Context, e: nat, linkify: bool, readers: Readers)
    requires !a.bounded && !b.bounded && node.Element?
    ensures ParseElement(node, a, d, linkify, readers).0 == ParseElement(node, b, e, linkify, readers).0
    decreases node, 0
  {
    hide RenderElement, CollectText, ParseInline;
    var linkifyChildren := LinkifiesChildren(node.name, linkify);
    CollectTextAnywhere([node], a, d + 1, b, e + 1, false);
    ParseInlineAnywhere(node.children, a, d + 1, b, e + 1, false, linkifyChildren, readers);
  }
}
