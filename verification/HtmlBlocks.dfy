/**
 * From the DOM tree to the block model: paragraphs, headings, lists, quotes
 * and tables, under the same budget as inline content.
 */
module HtmlBlocks {
  import opened HtmlTokens
  import opened HtmlNormalize
  import opened HtmlLinks
  import opened HtmlDom
  import opened HtmlInline
  import Layout = TableLayout

  datatype Cell = Cell(
    content: Inline, isHeader: bool, isStrong: bool, colspan: Layout.Positive, rowspan: Layout.Positive,
    align: Option<string>, valign: Option<string>)

  datatype TableKind = KeyValue | Records | Grid

  datatype TableModel = TableModel(rows: seq<seq<Cell>>, caption: Option<Inline>, kind: TableKind, logicalColumns: nat)

  datatype Block =
    | ParagraphBlock(content: Inline)
    | HeadingBlock(level: int, content: Inline)
    | PreBlock(text: string)
    | ListBlock(ordered: bool, start: int, items: seq<Inline>)
    | QuoteBlock(content: Inline)
    | DividerBlock
    | FooterBlock(content: Inline)
    | TableBlock(table: TableModel)

  // ---- Reading elements ---------------------------------------------------------

  predicate IsBlank(data: string) {
    forall i | 0 <= i < |data| :: IsSpace(data[i])
  }

  predicate ContainsBlockChild(node: Node)
    requires node.Element?
  {
    exists child | child in node.children :: child.Element? && IsBlockElement(child.name)
  }

  predicate IsCell(node: Node) {
    node.Element? && (node.name.Td? || node.name.Th?)
  }

  predicate IsRowGroup(node: Node) {
    node.Element? && (node.name.Thead? || node.name.Tbody? || node.name.Tfoot?)
  }

  // The rows of a table: its own, and those of its row groups.
  function DirectTableRows(children: seq<Node>, groups: bool): (rows: seq<Node>)
    ensures forall r | r in rows :: r.Element? && r.name.Tr?
    decreases children
  {
    if children == [] then []
    else
      var first := children[0];
      (if first.Element? && first.name.Tr? then [first]
       else if groups && IsRowGroup(first) then DirectTableRows(first.children, false)
       else []) + DirectTableRows(children[1..], groups)
  }

  function BoundedListStart(raw: Option<string>, readers: Readers): int {
    var number := if raw.Some? then readers.listNumber(raw.value) else None;
    if number.Some? then number.value else 1
  }

  function BoundedSpan(raw: Option<string>, readers: Readers): Layout.Positive {
    var number := if raw.Some? then readers.spanNumber(raw.value) else None;
    if number.Some? && 1 <= number.value <= 500 then number.value else 1
  }

  function SafeAlign(raw: Option<string>): Option<string> {
    if raw == Some("left") || raw == Some("center") || raw == Some("right") then raw else None
  }

  function SafeVAlign(raw: Option<string>): Option<string> {
    if raw == Some("top") || raw == Some("middle") || raw == Some("bottom") then raw else None
  }

  // ---- Strong cells ---------------------------------------------------------------

  /** A node still to be looked at, with the weight it inherits. */
  datatype Pending = Pending(node: Node, depth: nat, strong: bool)

  function ResolveStrong(inherited: bool, node: Node, readers: Readers): bool
    requires node.Element?
  {
    match if node.attrs.style.Some? then readers.fontWeight(node.attrs.style.value) else NoWeight
    case Bold => true
    case Normal => false
    case NoWeight => inherited || node.name.B? || node.name.Strong?
  }

  function NodeSize(node: Node): nat {
    if node.Element? then 1 + NodesSize(node.children) else 1
  }

  function NodesSize(nodes: seq<Node>): nat {
    if nodes == [] then 0 else NodeSize(nodes[0]) + NodesSize(nodes[1..])
  }

  function PendingSize(pending: seq<Pending>): nat {
    if pending == [] then 0 else PendingSize(pending[..|pending| - 1]) + NodeSize(pending[|pending| - 1].node)
  }

  function PushChildren(nodes: seq<Node>, depth: nat, strong: bool): (r: seq<Pending>)
    ensures |r| == |nodes|
  {
    seq(|nodes|, i requires 0 <= i < |nodes| => Pending(nodes[i], depth, strong))
  }

  lemma {:induction false} PendingSizeConcat(a: seq<Pending>, b: seq<Pending>)
    ensures PendingSize(a + b) == PendingSize(a) + PendingSize(b)
    decreases |b|
  {
    if b == [] {
      assert a + b == a;
    } else {
      assert (a + b)[..|a + b| - 1] == a + b[..|b| - 1];
      PendingSizeConcat(a, b[..|b| - 1]);
    }
  }

  lemma {:induction false} PushedSize(nodes: seq<Node>, depth: nat, strong: bool)
    ensures PendingSize(PushChildren(nodes, depth, strong)) == NodesSize(nodes)
  {
    if nodes != [] {
      var head, tail := [Pending(nodes[0], depth, strong)], PushChildren(nodes[1..], depth, strong);
      assert PushChildren(nodes, depth, strong) == head + tail;
      PendingSizeConcat(head, tail);
      assert head[..0] == [];
      PushedSize(nodes[1..], depth, strong);
    }
  }

  /** True when there is visible text and all of it is strong; nodes are taken from the end of `pending`. */
  function AllStrong(pending: seq<Pending>, visible: bool, ctx: Context, readers: Readers): (r: (bool, Context))
    ensures !ctx.bounded ==> r.1 == ctx
    decreases PendingSize(pending), |pending|
  {
    if pending == [] then (visible, ctx)
    else
      var current, rest := pending[|pending| - 1], pending[..|pending| - 1];
      var (entered, c) := Enter(ctx, current.depth);
      if !entered then (false, c)
      else if current.node.Text? then
        if IsBlank(current.node.data) then AllStrong(rest, visible, c, readers)
        else if !current.strong then (false, c)
        else AllStrong(rest, true, c, readers)
      else if current.node.NonContent? || IsDropped(current.node.name) then AllStrong(rest, visible, c, readers)
      else
        var strong := ResolveStrong(current.strong, current.node, readers);
        var pushed := PushChildren(current.node.children, current.depth + 1, strong);
        PendingSizeConcat(rest, pushed);
        PushedSize(current.node.children, current.depth + 1, strong);
        AllStrong(rest + pushed, visible, c, readers)
  }

  function IsEntireCellStrong(cell: Node, ctx: Context, depth: nat, readers: Readers): (r: (bool, Context))
    requires cell.Element?
    ensures !ctx.bounded ==> r.1 == ctx
  {
    AllStrong(PushChildren(cell.children, depth, ResolveStrong(false, cell, readers)), false, ctx, readers)
  }

  // ---- Data tables ------------------------------------------------------------------

  // Whether a table lies below; a depth limit skips a node, the node limit ends the search.
  function ContainsNestedTable(children: seq<Node>, ctx: Context, depth: nat): (r: (bool, Context))
    ensures !ctx.bounded ==> r.1 == ctx
    decreases children
  {
    if children == [] then (false, ctx)
    else
      var (entered, c1) := Enter(ctx, depth);
      if !entered then
        if c1.nodeLimitExceeded then (false, c1) else ContainsNestedTable(children[1..], c1, depth)
      else if !children[0].Element? then ContainsNestedTable(children[1..], c1, depth)
      else if children[0].name.Table? then (true, c1)
      else
        var (found, c2) := ContainsNestedTable(children[0].children, c1, depth + 1);
        if found then (true, c2) else ContainsNestedTable(children[1..], c2, depth)
  }

  function ParseCell(cell: Node, ctx: Context, depth: nat, readers: Readers): (r: (Cell, Context))
    requires cell.Element?
    ensures !ctx.bounded ==> r.1 == ctx
  {
    var (content, c1) := ParseInline(cell.children, ctx, depth + 1, true, true, readers);
    var (strong, c2) :=
      if cell.name.Th? then (true, c1) else IsEntireCellStrong(cell, c1, depth + 1, readers);
    (Cell(content, cell.name.Th?, strong, BoundedSpan(cell.attrs.colspan, readers),
          BoundedSpan(cell.attrs.rowspan, readers), SafeAlign(cell.attrs.align), SafeVAlign(cell.attrs.valign)), c2)
  }

  function ParseCells(children: seq<Node>, ctx: Context, depth: nat, readers: Readers): (r: (seq<Cell>, Context))
    ensures !ctx.bounded ==> r.1 == ctx
  {
    if children == [] then ([], ctx)
    else if !IsCell(children[0]) then ParseCells(children[1..], ctx, depth, readers)
    else
      var (first, c1) := ParseCell(children[0], ctx, depth, readers);
      var (rest, c2) := ParseCells(children[1..], c1, depth, readers);
      ([first] + rest, c2)
  }

  predicate HasText(row: seq<Cell>) {
    exists cell | cell in row :: cell.content.text != []
  }

  // The rows with some text.
  function ParseRows(rows: seq<Node>, ctx: Context, depth: nat, readers: Readers): (r: (seq<seq<Cell>>, Context))
    requires forall r | r in rows :: r.Element?
    ensures !ctx.bounded ==> r.1 == ctx
  {
    if rows == [] then ([], ctx)
    else
      var (first, c1) := ParseCells(rows[0].children, ctx, depth, readers);
      var (rest, c2) := ParseRows(rows[1..], c1, depth, readers);
      (if HasText(first) then [first] + rest else rest, c2)
  }

  function EmptyCell(): Cell {
    Cell(EmptyInline(), false, false, 1, 1, None, None)
  }

  function CellAt(row: seq<Cell>, index: nat): Cell {
    if index < |row| then row[index] else EmptyCell()
  }

  function Width(rows: seq<seq<Cell>>): nat {
    if rows == [] then 0 else Layout.Max(|rows[0]|, Width(rows[1..]))
  }

  // The columns from `index` on in which some row has text.
  function KeptColumns(rows: seq<seq<Cell>>, index: nat): seq<nat>
    decreases Width(rows) - index
  {
    if index >= Width(rows) then []
    else
      (if exists row | row in rows :: CellAt(row, index).content.text != [] then [index] else [])
        + KeptColumns(rows, index + 1)
  }

  predicate IsSpanned(rows: seq<seq<Cell>>) {
    exists row | row in rows :: exists cell | cell in row :: cell.colspan > 1 || cell.rowspan > 1
  }

  function RemoveEmptyUnspannedColumns(rows: seq<seq<Cell>>): (r: seq<seq<Cell>>)
    ensures |r| == |rows|
  {
    if IsSpanned(rows) then rows
    else
      var keep := KeptColumns(rows, 0);
      seq(|rows|, i requires 0 <= i < |rows| => seq(|keep|, j requires 0 <= j < |keep| => CellAt(rows[i], keep[j])))
  }

  function SpansOf(row: seq<Cell>): (r: seq<Layout.Spans>)
    ensures |r| == |row|
  {
    seq(|row|, i requires 0 <= i < |row| => Layout.Spans(row[i].colspan, row[i].rowspan))
  }

  function TableSpans(rows: seq<seq<Cell>>): (r: seq<seq<Layout.Spans>>)
    ensures |r| == |rows| && forall i | 0 <= i < |r| :: |r[i]| == |rows[i]|
  {
    seq(|rows|, i requires 0 <= i < |rows| => SpansOf(rows[i]))
  }

  predicate AllHeaders(row: seq<Cell>) {
    forall cell | cell in row :: cell.isHeader
  }

  predicate IsHeaderRow(first: seq<Cell>, others: seq<seq<Cell>>) {
    first != [] && others != [] &&
    (AllHeaders(first) || forall cell | cell in first :: cell.isStrong && cell.content.text != [])
  }

  function CountLeadingHeaderRows(rows: seq<seq<Cell>>): nat {
    if rows == [] || !AllHeaders(rows[0]) then 0 else 1 + CountLeadingHeaderRows(rows[1..])
  }

  predicate LooksLikeLabel(text: string, readers: Readers) {
    var value := TextOf(Trim(TextTokens(text)));
    0 < |value| <= 64 && readers.hasLetter(value) && '\r' !in value && '\n' !in value
  }

  predicate IsPair(row: seq<Cell>, index: nat)
    requires index + 1 < |row|
  {
    row[index].content.text != [] && row[index + 1].content.text != []
  }

  predicate IsKeyValueRow(row: seq<Cell>, readers: Readers) {
    && |row| >= 2 && |row| % 2 == 0
    && (forall cell | cell in row :: cell.colspan == 1 && cell.rowspan == 1)
    && (forall i | 0 <= i < |row| && i % 2 == 0 && IsPair(row, i) ::
          row[i].isHeader || row[i].isStrong || LooksLikeLabel(row[i].content.text, readers))
    && (exists i | 0 <= i < |row| :: i % 2 == 0 && IsPair(row, i))
  }

  predicate IsKeyValueTable(rows: seq<seq<Cell>>, readers: Readers) {
    rows != [] && forall row | row in rows :: IsKeyValueRow(row, readers)
  }

  function MarkHeaders(row: seq<Cell>, every: nat): (r: seq<Cell>)
    requires every > 0
    ensures |r| == |row|
  {
    seq(|row|, i requires 0 <= i < |row| => if i % every == 0 then row[i].(isHeader := true) else row[i])
  }

  function MarkKeys(rows: seq<seq<Cell>>): (r: seq<seq<Cell>>)
    ensures |r| == |rows|
  {
    seq(|rows|, i requires 0 <= i < |rows| => MarkHeaders(rows[i], 2))
  }

  // Decide what kind of data table the rows form.
  function BuildTable(rows: seq<seq<Cell>>, caption: Option<Inline>, readers: Readers): TableModel
    requires rows != []
  {
    var logicalColumns := Layout.LogicalColumns(TableSpans(rows));
    var inferredHeader := IsHeaderRow(rows[0], rows[1..]);
    var headed := if inferredHeader then [MarkHeaders(rows[0], 1)] + rows[1..] else rows;
    var kind :=
      if CountLeadingHeaderRows(headed) > 1 then Grid
      else if inferredHeader then Records
      else if IsKeyValueTable(headed, readers) then KeyValue
      else Grid;
    TableModel(if kind == KeyValue then MarkKeys(headed) else headed, caption, kind, logicalColumns)
  }

  function FindCaption(children: seq<Node>): (r: Option<Node>)
    ensures r.Some? ==> r.value in children && r.value.Element?
  {
    if children == [] then None
    else if children[0].Element? && children[0].name.Caption? then Some(children[0])
    else FindCaption(children[1..])
  }

  function ParseCaption(children: seq<Node>, ctx: Context, depth: nat, readers: Readers): (r: (Option<Inline>, Context))
    ensures !ctx.bounded ==> r.1 == ctx
  {
    var caption := FindCaption(children);
    if caption.None? then (None, ctx)
    else
      var (content, c) := ParseInline(caption.value.children, ctx, depth, true, true, readers);
      (Some(content), c)
  }

  // ---- Blocks -------------------------------------------------------------------------

  /** The state of a pass over sibling nodes: the inline nodes not yet flushed, and the blocks so far. */
  datatype Progress = Progress(run: seq<Node>, blocks: seq<Block>, ctx: Context)

  function PushBlock(block: Block, p: Progress): (r: Progress)
    ensures !p.ctx.bounded ==> r.ctx == p.ctx
  {
    if p.ctx.bounded && |p.blocks| >= MAX_MODEL_BLOCKS then p.(ctx := p.ctx.(modelTruncated := true))
    else p.(blocks := p.blocks + [block])
  }

  function PushBlocks(blocks: seq<Block>, p: Progress): (r: Progress)
    ensures !p.ctx.bounded ==> r.ctx == p.ctx
    decreases |blocks|
  {
    if blocks == [] then p else PushBlocks(blocks[1..], PushBlock(blocks[0], p))
  }

  function FlushInlineRun(p: Progress, depth: nat, readers: Readers): (r: Progress)
    ensures !p.ctx.bounded ==> r.ctx == p.ctx
  {
    if p.run == [] then p
    else
      var (content, c) := ParseInline(p.run, p.ctx, depth + 1, true, true, readers);
      var flushed := Progress([], p.blocks, c);
      if content.text == [] then flushed else PushBlock(ParagraphBlock(content), flushed)
  }

  function ParseBlocks(nodes: seq<Node>, ctx: Context, depth: nat, readers: Readers): (r: (seq<Block>, Context))
    ensures !ctx.bounded ==> r.1 == ctx
    decreases nodes, 4
  {
    var p := VisitNodes(nodes, Progress([], [], ctx), depth, readers);
    var end := FlushInlineRun(p, depth, readers);
    (end.blocks, end.ctx)
  }

  function VisitNodes(nodes: seq<Node>, p: Progress, depth: nat, readers: Readers): (r: Progress)
    ensures !p.ctx.bounded ==> r.ctx == p.ctx
    decreases nodes, 3
  {
    if nodes == [] then p
    else
      var (entered, c) := Enter(p.ctx, depth);
      if !entered then
        if c.nodeLimitExceeded then p.(ctx := c) else VisitNodes(nodes[1..], p.(ctx := c), depth, readers)
      else VisitNodes(nodes[1..], VisitNode(nodes[0], p.(ctx := c), depth, readers), depth, readers)
  }

  function VisitNode(node: Node, p: Progress, depth: nat, readers: Readers): (r: Progress)
    ensures !p.ctx.bounded ==> r.ctx == p.ctx
    decreases node, 2
  {
    if node.Text? then (if IsBlank(node.data) then p else p.(run := p.run + [node]))
    else if node.NonContent? || IsDropped(node.name) then p
    else if IsBlockElement(node.name) || ContainsBlockChild(node) then
      var flushed := FlushInlineRun(p, depth, readers);
      var (blocks, c) := ElementBlocks(node, flushed.ctx, depth, readers);
      PushBlocks(blocks, flushed.(ctx := c))
    else p.(run := p.run + [node])
  }

  // The items with some text.
  function ParseItems(children: seq<Node>, ctx: Context, depth: nat, readers: Readers): (r: (seq<Inline>, Context))
    ensures !ctx.bounded ==> r.1 == ctx
  {
    if children == [] then ([], ctx)
    else if !(children[0].Element? && children[0].name.Li?) then ParseItems(children[1..], ctx, depth, readers)
    else
      var (item, c1) := ParseInline(children[0].children, ctx, depth, true, true, readers);
      var (rest, c2) := ParseItems(children[1..], c1, depth, readers);
      (if item.text == [] then rest else [item] + rest, c2)
  }

  // The block one run of inline content becomes, if it has text.
  function ContentBlock(name: TagName, content: Inline): seq<Block> {
    if content.text == [] then []
    else if name.Heading? then [HeadingBlock(name.level, content)]
    else if name.Blockquote? then [QuoteBlock(content)]
    else if name.Footer? then [FooterBlock(content)]
    else [ParagraphBlock(content)]
  }

  // An element that is a block or a wrapper around blocks.
  function ElementBlocks(node: Node, ctx: Context, depth: nat, readers: Readers): (r: (seq<Block>, Context))
    requires node.Element?
    ensures !ctx.bounded ==> r.1 == ctx
    decreases node, 1
  {
    var name := node.name;
    if name.Pre? then
      var (collected, c) := CollectText(node.children, ctx, depth + 1, true);
      var text := TextOf(TrimEnd(TextTokens(collected)));
      (if text == [] then [] else [PreBlock(text)], c)
    else if name.Hr? then ([DividerBlock], ctx)
    else if name.Ul? || name.Ol? then
      var (items, c) := ParseItems(node.children, ctx, depth + 1, readers);
      var start := if name.Ol? then BoundedListStart(node.attrs.start, readers) else 1;
      (if items == [] then [] else [ListBlock(name.Ol?, start, items)], c)
    else if name.Table? then ParseTableElement(node, ctx, depth + 1, readers)
    else if ContainsBlockChild(node) && !name.Heading? && !name.Blockquote? && !name.Footer? then
      ParseBlocks(node.children, ctx, depth + 1, readers)
    else
      var (content, c) := ParseInline(node.children, ctx, depth + 1, true, true, readers);
      (ContentBlock(name, content), c)
  }

  function ParseTableElement(table: Node, ctx: Context, depth: nat, readers: Readers): (r: (seq<Block>, Context))
    requires table.Element?
    ensures !ctx.bounded ==> r.1 == ctx
    decreases table, 0
  {
    var rows := DirectTableRows(table.children, true);
    var (nested, c1) := ContainsNestedTable(table.children, ctx, depth + 1);
    if table.attrs.presentation || nested then FlattenLayoutTable(table.children, c1, depth + 1, readers)
    else
      var (parsed, c2) := ParseRows(rows, c1, depth + 1, readers);
      if parsed == [] || Layout.LogicalColumns(TableSpans(RemoveEmptyUnspannedColumns(parsed))) <= 1 then
        FlattenLayoutTable(table.children, c2, depth + 1, readers)
      else
        var (caption, c3) := ParseCaption(table.children, c2, depth + 1, readers);
        ([TableBlock(BuildTable(RemoveEmptyUnspannedColumns(parsed), caption, readers))], c3)
  }

  // A table used for layout, or holding tables: the blocks of its cells one after the other.
  function FlattenLayoutTable(
    children: seq<Node>, ctx: Context, depth: nat, readers: Readers): (r: (seq<Block>, Context))
    ensures !ctx.bounded ==> r.1 == ctx
    decreases children, 6
  {
    if DirectTableRows(children, true) == [] then FlattenCell(children, ctx, depth, readers)
    else FlattenRows(children, true, ctx, depth, readers)
  }

  function FlattenRows(children: seq<Node>, groups: bool, ctx: Context, depth: nat, readers: Readers):
    (r: (seq<Block>, Context))
    ensures !ctx.bounded ==> r.1 == ctx
    decreases children, 5
  {
    if children == [] then ([], ctx)
    else
      var first := children[0];
      var (blocks, c1) :=
        if first.Element? && first.name.Tr? then FlattenCells(first.children, ctx, depth, readers)
        else if groups && IsRowGroup(first) then FlattenRows(first.children, false, ctx, depth, readers)
        else ([], ctx);
      var (rest, c2) := FlattenRows(children[1..], groups, c1, depth, readers);
      (blocks + rest, c2)
  }

  function FlattenCells(children: seq<Node>, ctx: Context, depth: nat, readers: Readers): (r: (seq<Block>, Context))
    ensures !ctx.bounded ==> r.1 == ctx
    decreases children, 5
  {
    if children == [] then ([], ctx)
    else
      var (blocks, c1) :=
        if IsCell(children[0]) then FlattenCell(children[0].children, ctx, depth, readers) else ([], ctx);
      var (rest, c2) := FlattenCells(children[1..], c1, depth, readers);
      (blocks + rest, c2)
  }

  function FlattenCell(content: seq<Node>, ctx: Context, depth: nat, readers: Readers): (r: (seq<Block>, Context))
    ensures !ctx.bounded ==> r.1 == ctx
    decreases content, 5
  {
    var (blocks, c1) := ParseBlocks(content, ctx, depth + 1, readers);
    if blocks != [] then (blocks, c1)
    else
      var (inlined, c2) := ParseInline(content, c1, depth + 1, true, true, readers);
      (if inlined.text == [] then [] else [ParagraphBlock(inlined)], c2)
  }
}
