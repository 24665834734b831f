/**
 * From the block model to the two markups, the statistics the rich form is
 * judged by, and the whole document.
 */
module HtmlRender {
  import opened HtmlTokens
  import opened HtmlNormalize
  import opened HtmlLinks
  import opened HtmlDom
  import opened HtmlInline
  import opened HtmlBlocks
  import Layout = TableLayout

  // ---- Rich markup ------------------------------------------------------------------

  function RichItems(items: seq<Inline>): seq<Token> {
    if items == [] then [] else Wrap(HtmlTokens.Li, [], items[0].rich) + RichItems(items[1..])
  }

  function CellAttrs(cell: Cell): seq<Attr> {
    (if cell.colspan > 1 then [Valued(Colspan, Decimal(cell.colspan))] else [])
    + (if cell.rowspan > 1 then [Valued(Rowspan, Decimal(cell.rowspan))] else [])
    + (if cell.align.Some? then [Valued(Align, cell.align.value)] else [])
    + (if cell.valign.Some? then [Valued(Valign, cell.valign.value)] else [])
  }

  function RichCells(row: seq<Cell>): seq<Token> {
    if row == [] then []
    else
      Wrap(if row[0].isHeader then HtmlTokens.Th else HtmlTokens.Td, CellAttrs(row[0]), row[0].content.rich)
        + RichCells(row[1..])
  }

  function RichRows(rows: seq<seq<Cell>>): seq<Token> {
    if rows == [] then [] else Wrap(HtmlTokens.Tr, [], RichCells(rows[0])) + RichRows(rows[1..])
  }

  function RichCaption(caption: Option<Inline>): seq<Token> {
    if caption.Some? && caption.value.rich != [] then Wrap(HtmlTokens.Caption, [], caption.value.rich) else []
  }

  function RichBlock(b: Block): seq<Token> {
    match b
    case ParagraphBlock(content) => Wrap(P, [], content.rich)
    case HeadingBlock(level, content) => Wrap(H(level), [], content.rich)
    case PreBlock(text) => Wrap(HtmlTokens.Pre, [], TextTokens(text))
    case ListBlock(ordered, start, items) =>
      Wrap(if ordered then HtmlTokens.Ol else HtmlTokens.Ul,
           if ordered && start != 1 then [Valued(AttrName.Start, Decimal(start))] else [], RichItems(items))
    case QuoteBlock(content) => Wrap(HtmlTokens.Blockquote, [], content.rich)
    case DividerBlock => [Token.Hr]
    case FooterBlock(content) => Wrap(HtmlTokens.Footer, [], content.rich)
    case TableBlock(table) =>
      Wrap(HtmlTokens.Table, [Bordered, Compact], RichCaption(table.caption) + RichRows(table.rows))
  }

  function RenderRich(blocks: seq<Block>): seq<Token> {
    if blocks == [] then [] else RichBlock(blocks[0]) + RenderRich(blocks[1..])
  }

  // ---- Classic markup ---------------------------------------------------------------

  function Join(parts: seq<seq<Token>>, separator: string): seq<Token> {
    if parts == [] then []
    else if |parts| == 1 then parts[0]
    else parts[0] + TextTokens(separator) + Join(parts[1..], separator)
  }

  function NonEmpty(parts: seq<seq<Token>>): seq<seq<Token>> {
    if parts == [] then [] else (if parts[0] == [] then [] else [parts[0]]) + NonEmpty(parts[1..])
  }

  const MIDDLE_DOT := [' ', '\U{b7}', ' ']

  function ClassicBold(content: Inline): seq<Token> {
    if content.containsCode then content.classic else Wrap(HtmlTokens.B, [], content.classic)
  }

  function ClassicItems(ordered: bool, start: int, items: seq<Inline>): seq<seq<Token>>
    decreases items
  {
    if items == [] then []
    else
      var marker := if ordered then Decimal(start) + ". " else BULLET;
      [TextTokens(marker) + items[0].classic] + ClassicItems(ordered, start + 1, items[1..])
  }

  // A quote mark after every newline.
  function QuoteLines(ts: seq<Token>): seq<Token> {
    if ts == [] then []
    else (if ts[0] == Ch('\n') then TextTokens("\n> ") else [ts[0]]) + QuoteLines(ts[1..])
  }

  function KeyValuePairs(row: seq<Cell>, index: nat): seq<seq<Token>>
    decreases |row| - index
  {
    if index >= |row| then []
    else
      var key, value := row[index].content, CellAt(row, index + 1).content;
      var heading := if key.text != [] then key.text else "Field " + Decimal(index / 2 + 1);
      (if key.text == [] && value.text == [] then []
       else if value.text == [] then [key.classic]
       else [Wrap(HtmlTokens.B, [], TextTokens(heading + ":")) + TextTokens(" ") + value.classic])
        + KeyValuePairs(row, index + 2)
  }

  function KeyValueRows(rows: seq<seq<Cell>>): seq<seq<Token>> {
    if rows == [] then [] else [Join(KeyValuePairs(rows[0], 0), MIDDLE_DOT)] + KeyValueRows(rows[1..])
  }

  // The text of the header cell over a column, empty when there is none.
  function HeaderText(headers: seq<Cell>, places: seq<Layout.Rect>, column: nat): string
    requires |headers| == |places|
  {
    if headers == [] then []
    else
      var later := HeaderText(headers[1..], places[1..], column);
      if places[0].column <= column < places[0].End()
          && (forall p | p in places[1..] :: !(p.column <= column < p.End()))
      then headers[0].content.text else later
  }

  function RecordTitle(row: seq<Cell>, places: seq<Layout.Rect>): seq<Token>
    requires |row| == |places|
  {
    if row == [] then []
    else if places[0].column == 0 then (if row[0].content.classic == [] then [] else ClassicBold(row[0].content))
    else RecordTitle(row[1..], places[1..])
  }

  // The label of the fields in a column.
  function FieldName(headers: seq<Cell>, places: seq<Layout.Rect>, column: nat): string
    requires |headers| == |places|
  {
    var header := HeaderText(headers, places, column);
    if header != [] then header else "Column " + Decimal(column + 1)
  }

  function RecordFields(row: seq<Cell>, places: seq<Layout.Rect>, headers: seq<Cell>, headerPlaces: seq<Layout.Rect>):
    seq<seq<Token>>
    requires |row| == |places| && |headers| == |headerPlaces|
  {
    if row == [] then []
    else
      var column := places[0].column;
      var name := FieldName(headers, headerPlaces, column);
      (if column == 0 || row[0].content.text == [] then [] else [TextTokens(name + ": ") + row[0].content.classic])
        + RecordFields(row[1..], places[1..], headers, headerPlaces)
  }

  function RecordRows(
    rows: seq<seq<Cell>>, places: seq<seq<Layout.Rect>>, headers: seq<Cell>, headerPlaces: seq<Layout.Rect>):
    seq<seq<Token>>
    requires |rows| == |places| && |headers| == |headerPlaces|
    requires forall i | 0 <= i < |rows| :: |rows[i]| == |places[i]|
  {
    if rows == [] then []
    else
      var fields := Join(RecordFields(rows[0], places[0], headers, headerPlaces), MIDDLE_DOT);
      [Join(NonEmpty([RecordTitle(rows[0], places[0]), fields]), "\n")]
        + RecordRows(rows[1..], places[1..], headers, headerPlaces)
  }

  function TextCells(row: seq<Cell>): seq<seq<Token>> {
    if row == [] then [] else (if row[0].content.text == [] then [] else [row[0].content.classic]) + TextCells(row[1..])
  }

  function GridRows(rows: seq<seq<Cell>>): seq<seq<Token>> {
    if rows == [] then [] else [Join(TextCells(rows[0]), MIDDLE_DOT)] + GridRows(rows[1..])
  }

  function ClassicTable(table: TableModel): seq<Token> {
    var caption :=
      if table.caption.Some? && table.caption.value.classic != [] then
        ClassicBold(table.caption.value) + TextTokens("\n")
      else [];
    caption +
    if table.kind == KeyValue then Join(KeyValueRows(table.rows), "\n")
    else if table.kind == Records && |table.rows| > 1 then
      var places := Layout.Place(TableSpans(table.rows));
      Join(RecordRows(table.rows[1..], places[1..], table.rows[0], places[0]), "\n\n")
    else Join(GridRows(table.rows), "\n")
  }

  function ClassicBlock(b: Block): seq<Token> {
    match b
    case ParagraphBlock(content) => content.classic
    case HeadingBlock(_, content) => ClassicBold(content)
    case PreBlock(text) => Wrap(HtmlTokens.Pre, [], TextTokens(text))
    case ListBlock(ordered, start, items) => Join(ClassicItems(ordered, start, items), "\n")
    case QuoteBlock(content) => TextTokens("> ") + QuoteLines(content.classic)
    case DividerBlock => TextTokens(seq(8, _ => '\U{2500}'))
    case FooterBlock(content) => content.classic
    case TableBlock(table) => ClassicTable(table)
  }

  function ClassicBlocks(blocks: seq<Block>): seq<seq<Token>> {
    if blocks == [] then [] else [ClassicBlock(blocks[0])] + ClassicBlocks(blocks[1..])
  }

  function RenderClassic(blocks: seq<Block>): seq<Token> {
    Trim(Join(NonEmpty(ClassicBlocks(blocks)), "\n\n"))
  }

  // ---- Statistics -------------------------------------------------------------------

  datatype Stats = Stats(textCharacters: nat, blocks: nat, maxTableColumns: nat, outputDepth: int)

  function TextLength(items: seq<Inline>): nat {
    if items == [] then 0 else |items[0].text| + TextLength(items[1..])
  }

  function CellContents(row: seq<Cell>): (r: seq<Inline>)
    ensures |r| == |row| && forall i | 0 <= i < |r| :: r[i] == row[i].content
  {
    if row == [] then [] else [row[0].content] + CellContents(row[1..])
  }

  function TableContents(rows: seq<seq<Cell>>): seq<Inline> {
    if rows == [] then [] else CellContents(rows[0]) + TableContents(rows[1..])
  }

  // Every inline content of a block, in order.
  function Contents(b: Block): seq<Inline> {
    match b
    case ParagraphBlock(content) => [content]
    case HeadingBlock(_, content) => [content]
    case PreBlock(_) => []
    case ListBlock(_, _, items) => items
    case QuoteBlock(content) => [content]
    case DividerBlock => []
    case FooterBlock(content) => [content]
    case TableBlock(table) => (if table.caption.Some? then [table.caption.value] else []) + TableContents(table.rows)
  }

  function BlockText(b: Block): nat {
    if b.PreBlock? then |b.text| else TextLength(Contents(b))
  }

  function BlockCount(b: Block): nat {
    1 + if b.ListBlock? then |b.items| else if b.TableBlock? then |b.table.rows| else 0
  }

  function BlockColumns(b: Block): nat {
    if b.TableBlock? then b.table.logicalColumns else 0
  }

  function BlockDepth(b: Block): int {
    match b
    case ListBlock(_, _, items) => 2 + DeepestPart(items)
    case TableBlock(table) =>
      Max(3 + DeepestPart(TableContents(table.rows)),
          if table.caption.Some? then 2 + table.caption.value.maxDepth else 0)
    case PreBlock(_) => 1
    case DividerBlock => 1
    case _ => 1 + b.content.maxDepth
  }

  function AddStats(b: Block, s: Stats): Stats {
    Stats(s.textCharacters + BlockText(b), s.blocks + BlockCount(b),
          Layout.Max(s.maxTableColumns, BlockColumns(b)), Max(s.outputDepth, BlockDepth(b)))
  }

  function StatsOf(blocks: seq<Block>): Stats {
    if blocks == [] then Stats(0, 0, 0, 0) else AddStats(blocks[|blocks| - 1], StatsOf(blocks[..|blocks| - 1]))
  }

  method MeasureRichStats(blocks: seq<Block>) returns (stats: Stats)
    ensures stats == StatsOf(blocks)
  {
    stats := Stats(0, 0, 0, 0);
    for i := 0 to |blocks|
      invariant stats == StatsOf(blocks[..i])
    {
      assert blocks[..i + 1][..i] == blocks[..i];
      stats := MeasureBlock(blocks[i], stats);
    }
    assert blocks[..|blocks|] == blocks;
  }

  // The body of the loop over the blocks.
  method MeasureBlock(block: Block, before: Stats) returns (stats: Stats)
    ensures stats == AddStats(block, before)
  {
    var Stats(textCharacters, blockCount, maxTableColumns, outputDepth) := before;
    blockCount := blockCount + 1;
    match block {
      case PreBlock(text) =>
        textCharacters := textCharacters + |text|;
        outputDepth := Max(outputDepth, 1);
      case ListBlock(_, _, items) =>
        blockCount := blockCount + |items|;
        textCharacters := textCharacters + TextLength(items);
        outputDepth := Max(outputDepth, 2 + DeepestPart(items));
      case DividerBlock =>
        outputDepth := Max(outputDepth, 1);
      case TableBlock(table) =>
        blockCount := blockCount + |table.rows|;
        maxTableColumns := Layout.Max(maxTableColumns, table.logicalColumns);
        textCharacters := textCharacters + TextLength(Contents(block));
        outputDepth := Max(Max(outputDepth, 3 + DeepestPart(TableContents(table.rows))),
                           if table.caption.Some? then 2 + table.caption.value.maxDepth else 0);
      case _ =>
        assert TextLength(Contents(block)) == TextLength([block.content]) == |block.content.text|;
        textCharacters := textCharacters + |block.content.text|;
        outputDepth := Max(outputDepth, 1 + block.content.maxDepth);
    }
    stats := Stats(textCharacters, blockCount, maxTableColumns, outputDepth);
  }

  predicate BlockHasLinks(b: Block) {
    if b.PreBlock? then MentionsLink(b.text) else exists c | c in Contents(b) :: c.hasLinks
  }

  predicate HasLinks(blocks: seq<Block>) {
    exists b | b in blocks :: BlockHasLinks(b)
  }

  // ---- The document -----------------------------------------------------------------

  datatype Reason = InputLimit | TextLimit | BlockLimit | ColumnLimit | DepthLimit

  const MAX_RICH_TEXT_CHARACTERS := 32_768
  const MAX_RICH_BLOCKS := 500
  const MAX_RICH_TABLE_COLUMNS := 20
  const MAX_RICH_DEPTH := 16
  const OMITTED_NOTICE := "[... content omitted]"

  function RichIneligibility(ctx: Context, stats: Stats): Option<Reason> {
    if ctx.Truncated() then Some(InputLimit)
    else if stats.textCharacters > MAX_RICH_TEXT_CHARACTERS then Some(TextLimit)
    else if stats.blocks > MAX_RICH_BLOCKS then Some(BlockLimit)
    else if stats.maxTableColumns > MAX_RICH_TABLE_COLUMNS then Some(ColumnLimit)
    else if stats.outputDepth > MAX_RICH_DEPTH then Some(DepthLimit)
    else None
  }

  datatype Rendered = Rendered(
    classic: seq<Token>, rich: Option<seq<Token>>, reason: Option<Reason>, hasLinks: bool, hasVisibleContent: bool,
    stats: Stats)

  function FreshContext(sourceTruncated: bool, domTruncated: bool): Context {
    Context(0, sourceTruncated, domTruncated, false, false, false, true)
  }

  // The parsed blocks, closed by a notice when something was left out.
  function DocumentBlocks(parsed: seq<Block>, ctx: Context, notice: string): seq<Block> {
    var block := ParagraphBlock(PlainText(notice));
    if !ctx.Truncated() then parsed
    else if |parsed| >= MAX_MODEL_BLOCKS then parsed[MAX_MODEL_BLOCKS - 1 := block]
    else parsed + [block]
  }

  function RenderDocument(children: seq<Node>, sourceTruncated: bool, domTruncated: bool, readers: Readers): Rendered {
    var (parsed, ctx) := ParseBlocks(children, FreshContext(sourceTruncated, domTruncated), 0, readers);
    var blocks := DocumentBlocks(parsed, ctx, OMITTED_NOTICE);
    var stats := StatsOf(blocks);
    var reason := RichIneligibility(ctx, stats);
    Rendered(RenderClassic(blocks), if reason.None? then Some(RenderRich(blocks)) else None, reason,
             HasLinks(blocks), parsed != [], stats)
  }
}
