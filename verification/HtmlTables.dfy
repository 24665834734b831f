/**
 * What kind of table the rows of a data table form, read off its cells: which
 * cells are headers, which are strong, and what the written attributes say.
 */
module HtmlTables {
  import opened HtmlTokens
  import opened HtmlNormalize
  import opened HtmlLinks
  import opened HtmlDom
  import opened HtmlInline
  import opened HtmlBlocks
  import opened HtmlRender
  import opened HtmlReadBack
  import opened HtmlRuns
  import HtmlSpacing
  import Layout = TableLayout

  // ---- Strong cells -----------------------------------------------------------------------------

  // Some text that is not dropped is more than white space.
  predicate SomeVisible(nodes: seq<Node>) {
    nodes != [] && (NodeVisible(nodes[0]) || SomeVisible(nodes[1..]))
  }

  predicate NodeVisible(node: Node) {
    if node.Text? then !IsBlank(node.data) else node.Element? && !IsDropped(node.name) && SomeVisible(node.children)
  }

  // All such text is strong, where `strong` is what it inherits.
  predicate StrongThroughout(nodes: seq<Node>, strong: bool, readers: Readers) {
    nodes != [] ==> StrongNode(nodes[0], strong, readers) && StrongThroughout(nodes[1..], strong, readers)
  }

  predicate StrongNode(node: Node, strong: bool, readers: Readers) {
    if node.Text? then strong || IsBlank(node.data)
    else if node.NonContent? || IsDropped(node.name) then true
    else StrongThroughout(node.children, Weighs(node, strong, readers), readers)
  }

  // The weight an element gives its text: that of its style, or else bold in <b>
  // and <strong>, or else the inherited one.
  predicate Weighs(node: Node, strong: bool, readers: Readers)
    requires node.Element?
  {
    var weight := if node.attrs.style.Some? then readers.fontWeight(node.attrs.style.value) else NoWeight;
    weight == Bold || (weight == NoWeight && (strong || node.name.B? || node.name.Strong?))
  }

  // The same of the nodes still to be looked at, whatever their order.
  predicate PendingStrong(pending: seq<Pending>, readers: Readers) {
    forall p | p in pending :: StrongNode(p.node, p.strong, readers)
  }

  predicate PendingVisible(pending: seq<Pending>) {
    exists p | p in pending :: NodeVisible(p.node)
  }

  lemma {:induction false} PushedChildren(nodes: seq<Node>, depth: nat, strong: bool, readers: Readers)
    ensures PendingStrong(PushChildren(nodes, depth, strong), readers) <==> StrongThroughout(nodes, strong, readers)
    ensures PendingVisible(PushChildren(nodes, depth, strong)) <==> SomeVisible(nodes)
  {
    hide StrongNode, NodeVisible;
    if nodes != [] {
      PushedChildren(nodes[1..], depth, strong, readers);
      var head, tail := Pending(nodes[0], depth, strong), PushChildren(nodes[1..], depth, strong);
      assert PushChildren(nodes, depth, strong) == [head] + tail;
      BothPending([head], tail, readers);
      OnePending(head, readers);
    }
  }

  lemma OnePending(p: Pending, readers: Readers)
    ensures PendingStrong([p], readers) <==> StrongNode(p.node, p.strong, readers)
    ensures PendingVisible([p]) <==> NodeVisible(p.node)
  {
    hide StrongNode, NodeVisible;
    assert p in [p];
  }

  lemma BothPending(a: seq<Pending>, b: seq<Pending>, readers: Readers)
    ensures PendingStrong(a + b, readers) <==> PendingStrong(a, readers) && PendingStrong(b, readers)
    ensures PendingVisible(a + b) <==> PendingVisible(a) || PendingVisible(b)
  {
    hide StrongNode, NodeVisible;
    assert forall p | p in a :: p in a + b;
    assert forall p | p in b :: p in a + b;
  }

  // Whatever order the stack takes the nodes in.
  lemma {:induction false} AllStrongExactlyWhen(pending: seq<Pending>, visible: bool, ctx: Context, readers: Readers)
    requires !ctx.bounded
    ensures AllStrong(pending, visible, ctx, readers).0 <==>
            (visible || PendingVisible(pending)) && PendingStrong(pending, readers)
    decreases PendingSize(pending), |pending|
  {
    hide IsBlank, PendingStrong, PendingVisible, IsDropped;
    if pending == [] {
      NothingPending(readers);
    } else {
      var n := |pending| - 1;
      var current, rest := pending[n], pending[..n];
      assert pending == rest + [current];
      BothPending(rest, [current], readers);
      OnePending(current, readers);
      if current.node.Text? {
        AllStrongExactlyWhen(rest, visible || !IsBlank(current.node.data), ctx, readers);
      } else if current.node.NonContent? || IsDropped(current.node.name) {
        AllStrongExactlyWhen(rest, visible, ctx, readers);
      } else {
        var strong := ResolveStrong(current.strong, current.node, readers);
        var pushed := PushChildren(current.node.children, current.depth + 1, strong);
        PushedChildren(current.node.children, current.depth + 1, strong, readers);
        BothPending(rest, pushed, readers);
        PendingSizeConcat(rest, pushed);
        PushedSize(current.node.children, current.depth + 1, strong);
        AllStrongExactlyWhen(rest + pushed, visible, ctx, readers);
      }
    }
  }

  lemma NothingPending(readers: Readers)
    ensures PendingStrong([], readers) && !PendingVisible([])
  {
  }

  /** A cell is strong exactly if it has visible text and every bit of it is strong. */
  lemma StrongCellExactlyWhen(cell: Node, ctx: Context, depth: nat, readers: Readers)
    requires !ctx.bounded && cell.Element?
    ensures IsEntireCellStrong(cell, ctx, depth, readers).0 <==>
            SomeVisible(cell.children) && StrongThroughout(cell.children, Weighs(cell, false, readers), readers)
  {
    hide PendingStrong, PendingVisible, AllStrong;
    var strong := ResolveStrong(false, cell, readers);
    AllStrongExactlyWhen(PushChildren(cell.children, depth, strong), false, ctx, readers);
    PushedChildren(cell.children, depth, strong, readers);
  }

  // ---- Cells ------------------------------------------------------------------------------------

  // The number an attribute gives, if it is one from 1 to 500; otherwise 1.
  function SpanOf(raw: Option<string>, readers: Readers): int {
    if raw.None? || readers.spanNumber(raw.value).None? then 1
    else
      var n := readers.spanNumber(raw.value).value;
      if n < 1 || 500 < n then 1 else n
  }

  /** What a cell keeps of its element: a header is a <th>, and only safe spans and alignments stay. */
  lemma CellKeeps(cell: Node, ctx: Context, depth: nat, readers: Readers)
    requires !ctx.bounded && cell.Element?
    ensures var c, a := ParseCell(cell, ctx, depth, readers).0, cell.attrs;
            && (c.isHeader <==> cell.name.Th?)
            && (c.isStrong <==>
                  cell.name.Th?
                  || (SomeVisible(cell.children)
                      && StrongThroughout(cell.children, Weighs(cell, false, readers), readers)))
            && c.colspan == SpanOf(a.colspan, readers) && c.rowspan == SpanOf(a.rowspan, readers)
            && c.align == (if a.align in {Some("left"), Some("center"), Some("right")} then a.align else None)
            && c.valign == (if a.valign in {Some("top"), Some("middle"), Some("bottom")} then a.valign else None)
  {
    hide ParseInline, IsEntireCellStrong, SomeVisible, StrongThroughout;
    StrongCellExactlyWhen(cell, ctx, depth + 1, readers);
  }

  // ---- Kinds of tables --------------------------------------------------------------------------

  // The first of several rows is all headers, or all strong text.
  predicate HasHeaderRow(rows: seq<seq<Cell>>) {
    && |rows| > 1 && rows[0] != []
    && ((forall j | 0 <= j < |rows[0]| :: rows[0][j].isHeader)
        || (forall j | 0 <= j < |rows[0]| :: rows[0][j].isStrong && rows[0][j].content.text != []))
  }

  // The first two rows are all headers, the first one perhaps because it is strong.
  predicate HasTwoHeaderRows(rows: seq<seq<Cell>>) {
    && |rows| > 1 && (HasHeaderRow(rows) || rows[0] == [])
    && forall j | 0 <= j < |rows[1]| :: rows[1][j].isHeader
  }

  /** Cells in pairs of a label and a value: some pair is filled, and every filled one has a key that is a label. */
  predicate InPairs(row: seq<Cell>, readers: Readers) {
    && |row| > 0 && |row| % 2 == 0
    && (forall j | 0 <= j < |row| :: row[j].colspan == 1 == row[j].rowspan)
    && (exists k | 0 <= k < |row| / 2 :: FilledPair(row, k))
    && (forall k | 0 <= k < |row| / 2 && FilledPair(row, k) :: IsKey(row[2 * k], readers))
  }

  predicate FilledPair(row: seq<Cell>, k: nat)
    requires 2 * k + 1 < |row|
  {
    row[2 * k].content.text != [] && row[2 * k + 1].content.text != []
  }

  predicate IsKey(cell: Cell, readers: Readers) {
    cell.isHeader || cell.isStrong || LooksLikeLabel(cell.content.text, readers)
  }

  /**
   * A label is one line of 1 to 64 characters with a letter among them, not
   * counting the white space around it.
   */
  lemma LabelExactlyWhen(before: string, value: string, after: string, readers: Readers)
    requires HtmlSpacing.IsSpaces(before) && HtmlSpacing.IsSpaces(after)
    requires value == [] || (!IsSpace(value[0]) && !IsSpace(value[|value| - 1]))
    ensures LooksLikeLabel(before + value + after, readers) <==>
            1 <= |value| <= 64 && readers.hasLetter(value) && forall c | c in value :: c as int != 10 && c as int != 13
  {
    HtmlSpacing.TrimmedText(before, value, after);
  }

  lemma PairsExactlyWhen(row: seq<Cell>, readers: Readers)
    ensures IsKeyValueRow(row, readers) <==> InPairs(row, readers)
  {
    hide LooksLikeLabel;
    if IsKeyValueRow(row, readers) {
      var i :| 0 <= i < |row| && i % 2 == 0 && IsPair(row, i);
      assert FilledPair(row, i / 2);
      forall k | 0 <= k < |row| / 2 && FilledPair(row, k) ensures IsKey(row[2 * k], readers) {
        assert IsPair(row, 2 * k);
      }
    }
    if InPairs(row, readers) {
      var k :| 0 <= k < |row| / 2 && FilledPair(row, k);
      assert IsPair(row, 2 * k);
      forall i | 0 <= i < |row| && i % 2 == 0 && IsPair(row, i)
        ensures row[i].isHeader || row[i].isStrong || LooksLikeLabel(row[i].content.text, readers)
      {
        assert FilledPair(row, i / 2);
      }
    }
  }

  lemma HeaderRowExactlyWhen(rows: seq<seq<Cell>>)
    requires rows != []
    ensures IsHeaderRow(rows[0], rows[1..]) <==> HasHeaderRow(rows)
  {
    assert forall cell | cell in rows[0] :: exists j :: 0 <= j < |rows[0]| && rows[0][j] == cell;
  }

  lemma LeadingHeaders(rows: seq<seq<Cell>>)
    requires rows != []
    ensures CountLeadingHeaderRows(rows) > 1 <==> |rows| > 1 && AllHeaders(rows[0]) && AllHeaders(rows[1])
  {
  }

  /**
   * The kind of a table and its header cells: records below one header row,
   * pairs of labels and values, or a plain grid. No cell changes otherwise.
   */
  lemma TableKindExactlyWhen(rows: seq<seq<Cell>>, caption: Option<Inline>, readers: Readers)
    requires rows != []
    ensures var t := BuildTable(rows, caption, readers);
            var pairs := !HasHeaderRow(rows) && !HasTwoHeaderRows(rows) &&
                         (forall row | row in rows :: InPairs(row, readers));
            && (t.kind == Records <==> HasHeaderRow(rows) && !HasTwoHeaderRows(rows))
            && (t.kind == KeyValue <==> pairs)
            && t.caption == caption && |t.rows| == |rows|
            && forall i | 0 <= i < |rows| ::
                 && |t.rows[i]| == |rows[i]|
                 && forall j | 0 <= j < |rows[i]| ::
                      t.rows[i][j] == rows[i][j].(isHeader := rows[i][j].isHeader || (i == 0 && HasHeaderRow(rows))
                                                              || (j % 2 == 0 && pairs))
  {
    hide InPairs, HasHeaderRow, IsKeyValueRow, IsHeaderRow, CountLeadingHeaderRows, AllHeaders;
    HeaderRowExactlyWhen(rows);
    var first := HasHeaderRow(rows);
    var headed := if first then [MarkHeaders(rows[0], 1)] + rows[1..] else rows;
    LeadingHeaders(headed);
    TwoHeaderRows(rows, headed);
    forall row ensures IsKeyValueRow(row, readers) <==> InPairs(row, readers) { PairsExactlyWhen(row, readers); }
    forall i | 0 <= i < |rows|
      ensures |headed[i]| == |rows[i]|
      ensures forall j | 0 <= j < |rows[i]| ::
                headed[i][j] == rows[i][j].(isHeader := rows[i][j].isHeader || (i == 0 && first))
    {
      assert i > 0 ==> rows[1..][i - 1] == rows[i];
    }
  }

  lemma TwoHeaderRows(rows: seq<seq<Cell>>, headed: seq<seq<Cell>>)
    requires rows != [] && headed == if HasHeaderRow(rows) then [MarkHeaders(rows[0], 1)] + rows[1..] else rows
    ensures |headed| > 1 && AllHeaders(headed[0]) && AllHeaders(headed[1]) <==> HasTwoHeaderRows(rows)
  {
  }

  // ---- Attributes -------------------------------------------------------------------------------

  // What the first attribute of this name says.
  function ValueOf(attrs: seq<Attr>, name: AttrName): Option<string> {
    if attrs == [] then None
    else if attrs[0].Valued? && attrs[0].name == name then Some(attrs[0].value)
    else ValueOf(attrs[1..], name)
  }

  function NumberOf(attrs: seq<Attr>, name: AttrName): int {
    if ValueOf(attrs, name).Some? then ReadNumber(ValueOf(attrs, name).value) else 1
  }

  lemma {:induction false} ValueBehind(a: seq<Attr>, b: seq<Attr>, name: AttrName)
    ensures ValueOf(a + b, name) == if ValueOf(a, name).Some? then ValueOf(a, name) else ValueOf(b, name)
  {
    if a == [] {
      assert a + b == b;
    } else {
      assert (a + b)[0] == a[0] && (a + b)[1..] == a[1..] + b;
      ValueBehind(a[1..], b, name);
    }
  }

  // One attribute, or none.
  function Maybe(some: bool, name: AttrName, value: string): seq<Attr> {
    if some then [Valued(name, value)] else []
  }

  lemma OneAttr(some: bool, name: AttrName, value: string, other: AttrName)
    ensures ValueOf(Maybe(some, name, value), other) == if some && other == name then Some(value) else None
  {
    assert [Valued(name, value)][1..] == [];
  }

  /** The attributes of a cell, read back, give its spans and its alignment. */
  lemma CellAttrsReadBack(cell: Cell)
    ensures var attrs := CellAttrs(cell);
            && NumberOf(attrs, Colspan) == cell.colspan && NumberOf(attrs, Rowspan) == cell.rowspan
            && ValueOf(attrs, Align) == cell.align && ValueOf(attrs, Valign) == cell.valign
  {
    hide Decimal, ReadNumber, ValueOf;
    NumberReadsBack(cell.colspan);
    NumberReadsBack(cell.rowspan);
    var a := Maybe(cell.colspan > 1, Colspan, Decimal(cell.colspan));
    var b := Maybe(cell.rowspan > 1, Rowspan, Decimal(cell.rowspan));
    var c := if cell.align.Some? then Maybe(true, Align, cell.align.value) else Maybe(false, Align, "");
    var d := if cell.valign.Some? then Maybe(true, Valign, cell.valign.value) else Maybe(false, Valign, "");
    assert CellAttrs(cell) == a + b + c + d;
    forall name: AttrName
      ensures ValueOf(CellAttrs(cell), name) ==
              if name == Colspan && cell.colspan > 1 then Some(Decimal(cell.colspan))
              else if name == Rowspan && cell.rowspan > 1 then Some(Decimal(cell.rowspan))
              else if name == Align then cell.align
              else if name == Valign then cell.valign
              else None
    {
      ValueBehind(a + b + c, d, name);
      ValueBehind(a + b, c, name);
      ValueBehind(a, b, name);
      OneAttr(cell.colspan > 1, Colspan, Decimal(cell.colspan), name);
      OneAttr(cell.rowspan > 1, Rowspan, Decimal(cell.rowspan), name);
      OneAttr(cell.align.Some?, Align, if cell.align.Some? then cell.align.value else "", name);
      OneAttr(cell.valign.Some?, Valign, if cell.valign.Some? then cell.valign.value else "", name);
    }
  }

  /** So do those of a list: whether it is numbered, and where it starts. */
  lemma ListTagReadsBack(ordered: bool, start: int, items: seq<Inline>)
    ensures var open := RichBlock(ListBlock(ordered, start, items))[0];
            && open.Open? && open.kind == (if ordered then Kind.Ol else Kind.Ul)
            && NumberOf(open.attrs, AttrName.Start) == if ordered then start else 1
  {
    hide Decimal, ReadNumber;
    NumberReadsBack(start);
    OneAttr(true, AttrName.Start, Decimal(start), AttrName.Start);
  }
}
