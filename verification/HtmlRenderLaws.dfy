/**
 * What holds of the two rendered markups of every DOM tree.
 */
module HtmlRenderLaws {
  import opened HtmlTokens
  import opened HtmlNormalize
  import opened HtmlLinks
  import opened HtmlDom
  import opened HtmlInline
  import opened HtmlBlocks
  import opened HtmlBlockLaws
  import opened HtmlRender
  import Layout = TableLayout

  // ---- Rich -------------------------------------------------------------------------

  /** Tokens that fit under `base`, nest at most `depth` deep, show `ink`, and link only if `linked`. */
  ghost predicate Shows(ts: seq<Token>, base: seq<Kind>, depth: int, ink: string, linked: bool) {
    Fits(ts, base) && Depth(ts) <= depth && Visible(ts) == ink && (Opens(ts, HtmlTokens.A) ==> linked)
  }

  lemma ShowsNothing(base: seq<Kind>, depth: nat, linked: bool)
    ensures Shows([], base, depth, [], linked)
  {
  }

  lemma ShowsMore(ts: seq<Token>, base: seq<Kind>, depth: int, more: int, ink: string, linked: bool, alsoLinked: bool)
    requires Shows(ts, base, depth, ink, linked) && depth <= more && (linked ==> alsoLinked)
    ensures Shows(ts, base, more, ink, alsoLinked)
  {
  }

  lemma ShowsBoth(a: seq<Token>, b: seq<Token>, base: seq<Kind>, depth: int, x: string, y: string, linked: bool)
    requires Shows(a, base, depth, x, linked) && Shows(b, base, depth, y, linked)
    ensures Shows(a + b, base, depth, x + y, linked)
  {
    FitsConcat(a, b, base);
    VisibleConcat(a, b);
    OpensConcat(a, b);
  }

  lemma ShowsWrapped(k: Kind, attrs: seq<Attr>, ts: seq<Token>, base: seq<Kind>, depth: int, ink: string, linked: bool)
    requires MayOpen(k, base) && k != HtmlTokens.A && Shows(ts, base + [k], depth, ink, linked)
    ensures Shows(Wrap(k, attrs, ts), base, depth + 1, ink, linked)
  {
    WrapFits(k, attrs, ts, base);
  }

  lemma ShowsContent(c: Inline, base: seq<Kind>)
    requires Sound(c) && HoldsContent(base) && HtmlTokens.Code !in base && HtmlTokens.A !in base
    ensures Shows(c.rich, base, c.maxDepth, NonSpace(c.text), c.hasLinks)
  {
    FitsInside(c.rich, base);
  }

  // The visible characters of a list of contents.
  function Ink(items: seq<Inline>): string {
    if items == [] then [] else NonSpace(items[0].text) + Ink(items[1..])
  }

  lemma {:induction false} InkConcat(a: seq<Inline>, b: seq<Inline>)
    ensures Ink(a + b) == Ink(a) + Ink(b)
    ensures DeepestPart(a + b) == Max(DeepestPart(a), DeepestPart(b))
  {
    if a == [] {
      assert a + b == b;
      DeepestAtLeastZero(b);
    } else {
      assert (a + b)[0] == a[0] && (a + b)[1..] == a[1..] + b;
      InkConcat(a[1..], b);
      var own := NonSpace(a[0].text);
      assert own + (Ink(a[1..]) + Ink(b)) == own + Ink(a[1..]) + Ink(b);
    }
  }

  lemma {:induction false} DeepestAtLeastZero(items: seq<Inline>)
    ensures DeepestPart(items) >= 0
  {
    if items != [] {
      DeepestAtLeastZero(items[1..]);
    }
  }

  predicate SomeLinks(items: seq<Inline>) {
    exists c | c in items :: c.hasLinks
  }

  // Two parts side by side: the deeper depth, both inks, and links if either has some.
  lemma ShowsNext(a: seq<Token>, b: seq<Token>, base: seq<Kind>, m: int, n: int, x: string, y: string, p: bool, q: bool)
    requires Shows(a, base, m, x, p) && Shows(b, base, n, y, q)
    ensures Shows(a + b, base, Max(m, n), x + y, p || q)
  {
    hide Fits, Depth, Opens, Visible;
    ShowsMore(a, base, m, Max(m, n), x, p, p || q);
    ShowsMore(b, base, n, Max(m, n), y, q, p || q);
    ShowsBoth(a, b, base, Max(m, n), x, y, p || q);
  }

  lemma OneMore(c: Inline, rest: seq<Inline>)
    ensures Ink([c] + rest) == NonSpace(c.text) + Ink(rest)
            && DeepestPart([c] + rest) == Max(c.maxDepth, DeepestPart(rest))
    ensures SomeLinks([c] + rest) == (c.hasLinks || SomeLinks(rest))
    ensures Ink([]) == [] && DeepestPart([]) == 0 && !SomeLinks([])
  {
    assert ([c] + rest)[0] == c && ([c] + rest)[1..] == rest;
  }

  // An element around sound content, before what follows it.
  lemma WrappedContentNext(k: Kind, attrs: seq<Attr>, c: Inline, base: seq<Kind>, ts: seq<Token>, rest: seq<Inline>)
    requires Sound(c) && MayOpen(k, base) && !k.A? && HoldsContent(base + [k])
    requires HtmlTokens.Code !in base + [k] && HtmlTokens.A !in base + [k]
    requires Shows(ts, base, 1 + DeepestPart(rest), Ink(rest), SomeLinks(rest))
    ensures Shows(Wrap(k, attrs, c.rich) + ts, base, 1 + DeepestPart([c] + rest), Ink([c] + rest),
                  SomeLinks([c] + rest))
  {
    hide Shows, SoundMarkup, Wrap, MayOpen, DeepestPart, Ink, SomeLinks;
    ShowsContent(c, base + [k]);
    ShowsWrapped(k, attrs, c.rich, base, c.maxDepth, NonSpace(c.text), c.hasLinks);
    OneMore(c, rest);
    ShowsNext(Wrap(k, attrs, c.rich), ts, base, c.maxDepth + 1, 1 + DeepestPart(rest), NonSpace(c.text), Ink(rest),
              c.hasLinks, SomeLinks(rest));
  }

  lemma {:induction false} RichItemsShow(items: seq<Inline>, list: Kind)
    requires AllSound(items) && (list.Ol? || list.Ul?)
    ensures Shows(RichItems(items), [list], 1 + DeepestPart(items), Ink(items), SomeLinks(items))
  {
    hide Shows, SoundMarkup, Wrap, Ink, DeepestPart, SomeLinks;
    OneMore(PlainText(""), []);
    if items == [] {
      ShowsNothing([list], 1, false);
    } else {
      assert Sound(items[0]);
      RichItemsShow(items[1..], list);
      WrappedContentNext(Kind.Li, [], items[0], [list], RichItems(items[1..]), items[1..]);
      assert [items[0]] + items[1..] == items;
    }
  }

  const IN_ROW := [Kind.Table, Kind.Tr]

  lemma {:induction false} RichCellsShow(row: seq<Cell>)
    requires CellsSound(row)
    ensures Shows(RichCells(row), IN_ROW, 1 + DeepestPart(CellContents(row)), Ink(CellContents(row)),
                  SomeLinks(CellContents(row)))
  {
    hide Shows, SoundMarkup, Wrap, Ink, DeepestPart, SomeLinks, CellAttrs;
    OneMore(PlainText(""), []);
    if row == [] {
      ShowsNothing(IN_ROW, 1, false);
    } else {
      assert row[0] in row;
      RichCellsShow(row[1..]);
      WrappedContentNext(if row[0].isHeader then Kind.Th else Kind.Td, CellAttrs(row[0]), row[0].content, IN_ROW,
                         RichCells(row[1..]), CellContents(row[1..]));
    }
  }

  lemma {:induction false} RichRowsShow(rows: seq<seq<Cell>>)
    requires RowsSound(rows)
    ensures Shows(RichRows(rows), [Kind.Table], 2 + DeepestPart(TableContents(rows)), Ink(TableContents(rows)),
                  SomeLinks(TableContents(rows)))
  {
    hide Shows, Sound, Wrap, Ink, DeepestPart, SomeLinks, CellContents, RichCells;
    OneMore(PlainText(""), []);
    if rows == [] {
      ShowsNothing([Kind.Table], 2, false);
    } else {
      var row, rest := CellContents(rows[0]), TableContents(rows[1..]);
      assert CellsSound(rows[0]);
      RichCellsShow(rows[0]);
      RichRowsShow(rows[1..]);
      assert [Kind.Table] + [Kind.Tr] == IN_ROW;
      ShowsWrapped(Kind.Tr, [], RichCells(rows[0]), [Kind.Table], 1 + DeepestPart(row), Ink(row), SomeLinks(row));
      InkConcat(row, rest);
      LinksConcat(row, rest);
      ShowsNext(Wrap(Kind.Tr, [], RichCells(rows[0])), RichRows(rows[1..]), [Kind.Table], 2 + DeepestPart(row),
                2 + DeepestPart(rest), Ink(row), Ink(rest), SomeLinks(row), SomeLinks(rest));
    }
  }

  lemma LinksConcat(a: seq<Inline>, b: seq<Inline>)
    ensures SomeLinks(a + b) == (SomeLinks(a) || SomeLinks(b))
  {
  }

  // The visible characters a block shows in the rich form.
  function BlockInk(b: Block): string {
    if b.PreBlock? then NonSpace(b.text) else Ink(Contents(b))
  }

  function CaptionContents(caption: Option<Inline>): seq<Inline> {
    if caption.Some? then [caption.value] else []
  }

  // A table shows its caption and its rows, and is measured and reported linked by either.
  lemma TableParts(table: TableModel)
    ensures var b, cells := TableBlock(table), TableContents(table.rows);
            && BlockInk(b) == Ink(CaptionContents(table.caption)) + Ink(cells)
            && 2 + DeepestPart(cells) < BlockDepth(b)
            && (SomeLinks(cells) ==> BlockHasLinks(b))
  {
    hide DeepestPart, TableContents;
    InkConcat(CaptionContents(table.caption), TableContents(table.rows));
  }

  lemma CaptionOfTable(table: TableModel)
    requires table.caption.Some?
    ensures var b, c := TableBlock(table), table.caption.value;
            2 + c.maxDepth <= BlockDepth(b) && (c.hasLinks ==> BlockHasLinks(b))
  {
    hide DeepestPart, TableContents;
    assert table.caption.value in Contents(TableBlock(table));
  }

  lemma TableRowsShow(table: TableModel)
    requires RowsSound(table.rows)
    ensures var b, cells := TableBlock(table), TableContents(table.rows);
            Shows(RichRows(table.rows), [Kind.Table], BlockDepth(b) - 1, Ink(cells), BlockHasLinks(b))
  {
    hide Shows, RichRows, TableContents, Ink, DeepestPart, BlockDepth, BlockHasLinks, SomeLinks;
    var b, cells := TableBlock(table), TableContents(table.rows);
    TableParts(table);
    RichRowsShow(table.rows);
    ShowsMore(RichRows(table.rows), [Kind.Table], 2 + DeepestPart(cells), BlockDepth(b) - 1, Ink(cells),
              SomeLinks(cells), BlockHasLinks(b));
  }

  lemma TableCaptionShows(table: TableModel)
    requires table.caption.Some? ==> Sound(table.caption.value)
    ensures var b := TableBlock(table);
            Shows(RichCaption(table.caption), [Kind.Table], BlockDepth(b) - 1, Ink(CaptionContents(table.caption)),
                  BlockHasLinks(b))
  {
    hide Shows, RichCaption, TableContents, Ink, DeepestPart, BlockDepth, BlockHasLinks, SomeLinks;
    if table.caption.Some? {
      CaptionOfTable(table);
    }
    TableParts(table);
    DeepestAtLeastZero(TableContents(table.rows));
    RichCaptionShows(table.caption, BlockDepth(TableBlock(table)) - 1, BlockHasLinks(TableBlock(table)));
  }

  lemma RichTableShows(table: TableModel)
    requires BlockSound(TableBlock(table))
    ensures var b := TableBlock(table); Shows(RichBlock(b), [], BlockDepth(b), BlockInk(b), BlockHasLinks(b))
  {
    hide Shows, Wrap, Sound, RowsSound, RichCaption, RichRows, Ink, BlockInk, DeepestPart, BlockDepth, BlockHasLinks,
      SomeLinks, TableContents, CaptionContents;
    var b := TableBlock(table);
    var depth, linked := BlockDepth(b) - 1, BlockHasLinks(b);
    TableParts(table);
    TableRowsShow(table);
    TableCaptionShows(table);
    ShowsBoth(RichCaption(table.caption), RichRows(table.rows), [Kind.Table], depth,
              Ink(CaptionContents(table.caption)), Ink(TableContents(table.rows)), linked);
    assert [] + [Kind.Table] == [Kind.Table];
    ShowsWrapped(Kind.Table, [Bordered, Compact], RichCaption(table.caption) + RichRows(table.rows), [], depth,
                 BlockInk(b), linked);
  }

  lemma RichCaptionShows(caption: Option<Inline>, depth: nat, linked: bool)
    requires caption.Some? ==>
               Sound(caption.value) && (caption.value.hasLinks ==> linked) && 1 + caption.value.maxDepth <= depth
    ensures Shows(RichCaption(caption), [Kind.Table], depth, Ink(CaptionContents(caption)), linked)
  {
    if caption.Some? {
      var c := caption.value;
      assert Ink([c]) == NonSpace(c.text);
      if c.rich == [] {
        ShowsNothing([Kind.Table], depth, linked);
      } else {
        ShowsContent(c, [Kind.Table] + [Kind.Caption]);
        ShowsWrapped(Kind.Caption, [], c.rich, [Kind.Table], c.maxDepth, NonSpace(c.text), c.hasLinks);
        ShowsMore(Wrap(Kind.Caption, [], c.rich), [Kind.Table], c.maxDepth + 1, depth, NonSpace(c.text), c.hasLinks,
                  linked);
      }
    } else {
      ShowsNothing([Kind.Table], depth, linked);
    }
  }

  lemma ContentBlockShows(k: Kind, c: Inline)
    requires Sound(c) && (k.P? || k.H? || k.Blockquote? || k.Footer?)
    ensures Shows(Wrap(k, [], c.rich), [], 1 + c.maxDepth, Ink([c]), SomeLinks([c]))
  {
    assert Ink([c]) == NonSpace(c.text);
    assert c.hasLinks ==> SomeLinks([c]) by { assert c in [c]; }
    ShowsContent(c, [] + [k]);
    ShowsWrapped(k, [], c.rich, [], c.maxDepth, NonSpace(c.text), c.hasLinks);
  }

  lemma PreShows(text: string)
    ensures Shows(Wrap(Kind.Pre, [], TextTokens(text)), [], 1, NonSpace(text), false)
  {
    ScanText(TextTokens(text), [Kind.Pre]);
    VisibleOfText(text);
    assert [] + [Kind.Pre] == [Kind.Pre];
    ShowsWrapped(Kind.Pre, [], TextTokens(text), [], 0, NonSpace(text), false);
  }

  lemma RuleShows()
    ensures Shows([Token.Hr], [], 1, [], false)
  {
    assert [Token.Hr][1..] == [];
  }

  lemma RichBlockShows(b: Block)
    requires BlockSound(b)
    ensures Shows(RichBlock(b), [], BlockDepth(b), BlockInk(b), BlockHasLinks(b))
  {
    match b
    case ParagraphBlock(content) => ContentBlockShows(Kind.P, content);
    case HeadingBlock(level, content) => ContentBlockShows(Kind.H(level), content);
    case PreBlock(text) => PreShows(text);
    case ListBlock(ordered, start, items) =>
      var k := if ordered then Kind.Ol else Kind.Ul;
      RichItemsShow(items, k);
      assert [] + [k] == [k];
      ShowsWrapped(k, if ordered && start != 1 then [Valued(AttrName.Start, Decimal(start))] else [],
                   RichItems(items), [],
                   1 + DeepestPart(items), Ink(items), SomeLinks(items));
    case QuoteBlock(content) => ContentBlockShows(Kind.Blockquote, content);
    case DividerBlock => RuleShows();
    case FooterBlock(content) => ContentBlockShows(Kind.Footer, content);
    case TableBlock(table) => RichTableShows(table);
  }

  function BlocksInk(blocks: seq<Block>): string {
    if blocks == [] then [] else BlockInk(blocks[0]) + BlocksInk(blocks[1..])
  }

  /**
   * The rich form of sound blocks is a well-formed document, no deeper than the measured depth, shows exactly the
   * visible characters of the blocks, and holds a link only if links are reported.
   */
  lemma {:induction false} RenderRichShows(blocks: seq<Block>, depth: nat)
    requires BlocksSound(blocks) && forall b | b in blocks :: BlockDepth(b) <= depth
    ensures Shows(RenderRich(blocks), [], depth, BlocksInk(blocks), HasLinks(blocks))
  {
    if blocks == [] {
      ShowsNothing([], depth, false);
    } else {
      var first, rest := blocks[0], blocks[1..];
      assert BlockSound(first);
      RichBlockShows(first);
      ShowsMore(RichBlock(first), [], BlockDepth(first), depth, BlockInk(first), BlockHasLinks(first),
                HasLinks(blocks));
      RenderRichShows(rest, depth);
      ShowsMore(RenderRich(rest), [], depth, depth, BlocksInk(rest), HasLinks(rest), HasLinks(blocks));
      ShowsBoth(RichBlock(first), RenderRich(rest), [], depth, BlockInk(first), BlocksInk(rest), HasLinks(blocks));
    }
  }

  lemma {:induction false} MeasuredDepthBounds(blocks: seq<Block>)
    ensures forall b | b in blocks :: BlockDepth(b) <= StatsOf(blocks).outputDepth
    ensures StatsOf(blocks).outputDepth >= 0
  {
    if blocks != [] {
      MeasuredDepthBounds(blocks[..|blocks| - 1]);
    }
  }

  // ---- Classic ----------------------------------------------------------------------

  /** Well-formed, with no tag but inline tags, the native one among them, and <pre>. */
  ghost predicate ClassicOk(ts: seq<Token>) {
    WellFormed(ts) && forall k :: Opens(ts, k) ==> IsInlineKind(k) || k.Pre?
  }

  ghost predicate PartsOk(parts: seq<seq<Token>>) {
    forall p | p in parts :: ClassicOk(p)
  }

  lemma ClassicText(text: string)
    ensures ClassicOk(TextTokens(text))
  {
    ScanText(TextTokens(text), []);
  }

  lemma ClassicConcat(a: seq<Token>, b: seq<Token>)
    requires ClassicOk(a) && ClassicOk(b)
    ensures ClassicOk(a + b)
  {
    WellFormedConcat(a, b);
    OpensConcat(a, b);
  }

  lemma ClassicContent(c: Inline)
    requires Sound(c)
    ensures ClassicOk(c.classic) && ClassicOk(ClassicBold(c))
  {
    WrapWellFormed(HtmlTokens.B, [], c.classic);
  }

  lemma LabelledContent(before: string, c: Inline)
    requires Sound(c)
    ensures ClassicOk(TextTokens(before) + c.classic)
  {
    ClassicContent(c);
    ClassicText(before);
    ClassicConcat(TextTokens(before), c.classic);
  }

  lemma {:induction false} JoinOk(parts: seq<seq<Token>>, separator: string)
    requires PartsOk(parts)
    ensures ClassicOk(Join(parts, separator)) && PartsOk(NonEmpty(parts))
  {
    ClassicText("");
    assert TextTokens("") == [];
    if parts != [] {
      assert ClassicOk(parts[0]);
      JoinOk(parts[1..], separator);
      ClassicText(separator);
      ClassicConcat(parts[0], TextTokens(separator));
      ClassicConcat(parts[0] + TextTokens(separator), Join(parts[1..], separator));
    }
  }

  lemma {:induction false} ClassicItemsOk(ordered: bool, start: int, items: seq<Inline>)
    requires AllSound(items)
    ensures PartsOk(ClassicItems(ordered, start, items))
    decreases items
  {
    if items != [] {
      assert Sound(items[0]);
      LabelledContent(if ordered then Decimal(start) + ". " else BULLET, items[0]);
      ClassicItemsOk(ordered, start + 1, items[1..]);
    }
  }

  lemma {:induction false} QuotedScan(ts: seq<Token>, stack: seq<Kind>)
    ensures Scan(QuoteLines(ts), stack) == Scan(ts, stack)
    ensures forall k :: Opens(QuoteLines(ts), k) <==> Opens(ts, k)
  {
    if ts != [] {
      var first := if ts[0] == Ch('\n') then TextTokens("\n> ") else [ts[0]];
      var rest := QuoteLines(ts[1..]);
      var next := if ts[0].Open? then stack + [ts[0].kind]
                  else if ts[0].Close? && stack != [] then stack[..|stack| - 1] else stack;
      QuotedScan(ts[1..], next);
      if ts[0] == Ch('\n') {
        ScanText(first, stack);
      } else {
        assert (first + rest)[1..] == rest;
      }
      ScanConcat(first, rest, stack);
      OpensConcat(first, rest);
      assert ts == [ts[0]] + ts[1..];
      OpensConcat([ts[0]], ts[1..]);
      if ts[0] == Ch('\n') {
        ScanText([ts[0]], stack);
      }
    }
  }

  lemma QuoteOk(c: Inline)
    requires Sound(c)
    ensures ClassicOk(TextTokens("> ") + QuoteLines(c.classic))
  {
    QuotedScan(c.classic, []);
    ClassicText("> ");
    ClassicConcat(TextTokens("> "), QuoteLines(c.classic));
  }

  lemma KeyValuePairOk(heading: string, value: Inline)
    requires Sound(value)
    ensures ClassicOk(Wrap(HtmlTokens.B, [], TextTokens(heading + ":")) + TextTokens(" ") + value.classic)
  {
    var name := TextTokens(heading + ":");
    ClassicText(heading + ":");
    ScanText(name, []);
    WrapWellFormed(HtmlTokens.B, [], name);
    ClassicText(" ");
    ClassicConcat(Wrap(HtmlTokens.B, [], name), TextTokens(" "));
    ClassicContent(value);
    ClassicConcat(Wrap(HtmlTokens.B, [], name) + TextTokens(" "), value.classic);
  }

  lemma {:induction false} KeyValuePairsOk(row: seq<Cell>, index: nat)
    requires CellsSound(row)
    ensures PartsOk(KeyValuePairs(row, index))
    decreases |row| - index
  {
    if index < |row| {
      var key, value := row[index].content, CellAt(row, index + 1).content;
      PlainTextSound("");
      assert row[index] in row && Sound(value);
      ClassicContent(key);
      KeyValuePairOk(if key.text != [] then key.text else "Field " + Decimal(index / 2 + 1), value);
      KeyValuePairsOk(row, index + 2);
    }
  }

  lemma {:induction false} KeyValueRowsOk(rows: seq<seq<Cell>>)
    requires RowsSound(rows)
    ensures PartsOk(KeyValueRows(rows))
  {
    if rows != [] {
      assert CellsSound(rows[0]);
      KeyValuePairsOk(rows[0], 0);
      JoinOk(KeyValuePairs(rows[0], 0), MIDDLE_DOT);
      KeyValueRowsOk(rows[1..]);
    }
  }

  lemma {:induction false} RecordTitleOk(row: seq<Cell>, places: seq<Layout.Rect>)
    requires |row| == |places| && CellsSound(row)
    ensures ClassicOk(RecordTitle(row, places))
  {
    ClassicText("");
    assert TextTokens("") == [];
    if row != [] {
      assert row[0] in row;
      ClassicContent(row[0].content);
      RecordTitleOk(row[1..], places[1..]);
    }
  }

  lemma {:induction false} RecordFieldsOk(
    row: seq<Cell>, places: seq<Layout.Rect>, headers: seq<Cell>, headerPlaces: seq<Layout.Rect>)
    requires |row| == |places| && |headers| == |headerPlaces| && CellsSound(row)
    ensures PartsOk(RecordFields(row, places, headers, headerPlaces))
  {
    if row != [] {
      assert row[0] in row;
      LabelledContent(FieldName(headers, headerPlaces, places[0].column) + ": ", row[0].content);
      RecordFieldsOk(row[1..], places[1..], headers, headerPlaces);
    }
  }

  lemma {:induction false} RecordRowsOk(
    rows: seq<seq<Cell>>, places: seq<seq<Layout.Rect>>, headers: seq<Cell>, headerPlaces: seq<Layout.Rect>)
    requires |rows| == |places| && |headers| == |headerPlaces|
    requires forall i | 0 <= i < |rows| :: |rows[i]| == |places[i]|
    requires RowsSound(rows)
    ensures PartsOk(RecordRows(rows, places, headers, headerPlaces))
  {
    if rows != [] {
      assert CellsSound(rows[0]);
      RecordTitleOk(rows[0], places[0]);
      RecordFieldsOk(rows[0], places[0], headers, headerPlaces);
      var fields := Join(RecordFields(rows[0], places[0], headers, headerPlaces), MIDDLE_DOT);
      JoinOk(RecordFields(rows[0], places[0], headers, headerPlaces), MIDDLE_DOT);
      JoinOk([RecordTitle(rows[0], places[0]), fields], "\n");
      JoinOk(NonEmpty([RecordTitle(rows[0], places[0]), fields]), "\n");
      RecordRowsOk(rows[1..], places[1..], headers, headerPlaces);
    }
  }

  lemma {:induction false} TextCellsOk(row: seq<Cell>)
    requires CellsSound(row)
    ensures PartsOk(TextCells(row))
  {
    if row != [] {
      assert row[0] in row;
      ClassicContent(row[0].content);
      TextCellsOk(row[1..]);
    }
  }

  lemma {:induction false} GridRowsOk(rows: seq<seq<Cell>>)
    requires RowsSound(rows)
    ensures PartsOk(GridRows(rows))
  {
    if rows != [] {
      assert CellsSound(rows[0]);
      TextCellsOk(rows[0]);
      JoinOk(TextCells(rows[0]), MIDDLE_DOT);
      GridRowsOk(rows[1..]);
    }
  }

  lemma ClassicTableOk(table: TableModel)
    requires BlockSound(TableBlock(table))
    ensures ClassicOk(ClassicTable(table))
  {
    hide SoundMarkup;
    ClassicText("");
    assert TextTokens("") == [];
    if table.caption.Some? {
      ClassicContent(table.caption.value);
      ClassicText("\n");
      ClassicConcat(ClassicBold(table.caption.value), TextTokens("\n"));
    }
    var caption :=
      if table.caption.Some? && table.caption.value.classic != [] then
        ClassicBold(table.caption.value) + TextTokens("\n")
      else [];
    if table.kind == KeyValue {
      KeyValueRowsOk(table.rows);
      JoinOk(KeyValueRows(table.rows), "\n");
      ClassicConcat(caption, Join(KeyValueRows(table.rows), "\n"));
    } else if table.kind == Records && |table.rows| > 1 {
      var places := Layout.Place(TableSpans(table.rows));
      var records := RecordRows(table.rows[1..], places[1..], table.rows[0], places[0]);
      RecordRowsOk(table.rows[1..], places[1..], table.rows[0], places[0]);
      JoinOk(records, "\n\n");
      ClassicConcat(caption, Join(records, "\n\n"));
    } else {
      GridRowsOk(table.rows);
      JoinOk(GridRows(table.rows), "\n");
      ClassicConcat(caption, Join(GridRows(table.rows), "\n"));
    }
  }

  lemma ClassicBlockOk(b: Block)
    requires BlockSound(b)
    ensures ClassicOk(ClassicBlock(b))
  {
    match b
    case ParagraphBlock(content) => ClassicContent(content);
    case HeadingBlock(_, content) => ClassicContent(content);
    case PreBlock(text) =>
      PreShows(text);
      ScanText(TextTokens(text), []);
      WrapOpens(Kind.Pre, TextTokens(text));
    case ListBlock(ordered, start, items) =>
      ClassicItemsOk(ordered, start, items);
      JoinOk(ClassicItems(ordered, start, items), "\n");
    case QuoteBlock(content) => QuoteOk(content);
    case DividerBlock => ClassicText(seq(8, _ => '\U{2500}'));
    case FooterBlock(content) => ClassicContent(content);
    case TableBlock(table) => ClassicTableOk(table);
  }

  lemma WrapOpens(k: Kind, text: seq<Token>)
    requires OnlyText(text)
    ensures forall j :: Opens(Wrap(k, [], text), j) ==> j == k
  {
  }

  lemma {:induction false} ClassicBlocksOk(blocks: seq<Block>)
    requires BlocksSound(blocks)
    ensures PartsOk(ClassicBlocks(blocks))
  {
    if blocks != [] {
      assert BlockSound(blocks[0]);
      ClassicBlockOk(blocks[0]);
      ClassicBlocksOk(blocks[1..]);
    }
  }

  /** The classic form of sound blocks is well-formed and uses only inline tags and <pre>. */
  lemma RenderClassicOk(blocks: seq<Block>)
    requires BlocksSound(blocks)
    ensures ClassicOk(RenderClassic(blocks))
  {
    var parts := ClassicBlocks(blocks);
    ClassicBlocksOk(blocks);
    JoinOk(parts, "\n\n");
    JoinOk(NonEmpty(parts), "\n\n");
    TrimAlike(Join(NonEmpty(parts), "\n\n"));
  }

  // ---- The document -----------------------------------------------------------------

  // The blocks of the whole tree, parsed without any limit.
  function WholeDocument(children: seq<Node>, readers: Readers): seq<Block> {
    ParseBlocks(children, FreshContext(false, false).Unbounded(), 0, readers).0
  }

  lemma NoticeIsSound(parsed: seq<Block>, ctx: Context, notice: string)
    requires BlocksSound(parsed) && |parsed| <= 600
    ensures BlocksSound(DocumentBlocks(parsed, ctx, notice))
            && |DocumentBlocks(parsed, ctx, notice)| <= 600
  {
    PlainTextSound(notice);
  }

  lemma UntruncatedIsWhole(children: seq<Node>, sourceTruncated: bool, domTruncated: bool, readers: Readers)
    ensures var (parsed, ctx) := ParseBlocks(children, FreshContext(sourceTruncated, domTruncated), 0, readers);
            && BlocksSound(parsed) && |parsed| <= 600
            && (!ctx.Truncated() ==> !sourceTruncated && !domTruncated && parsed == WholeDocument(children, readers))
  {
    ParseBlocksLaw(children, FreshContext(sourceTruncated, domTruncated), 0, readers);
  }

  lemma WithinRichLimits(blocks: seq<Block>, ctx: Context)
    requires BlocksSound(blocks) && RichIneligibility(ctx, StatsOf(blocks)).None?
    ensures Shows(RenderRich(blocks), [], StatsOf(blocks).outputDepth, BlocksInk(blocks), HasLinks(blocks))
    ensures Depth(RenderRich(blocks)) <= 16
  {
    MeasuredDepthBounds(blocks);
    RenderRichShows(blocks, StatsOf(blocks).outputDepth);
  }

  /**
   * For every DOM tree: both markups are well formed, use only their tags and
   * the native one, and link only if links are reported; a rich form is produced only
   * of the whole document, nested no deeper than the reported depth and at
   * most 16 deep, and shows exactly the document's visible characters.
   */
  lemma RenderedDocument(children: seq<Node>, sourceTruncated: bool, domTruncated: bool, readers: Readers)
    ensures var r := RenderDocument(children, sourceTruncated, domTruncated, readers);
            var whole := WholeDocument(children, readers);
            && ClassicOk(r.classic)
            && (r.rich.Some? ==>
                  && !sourceTruncated && !domTruncated && r.rich.value == RenderRich(whole) && r.stats == StatsOf(whole)
                  && Shows(r.rich.value, [], r.stats.outputDepth, BlocksInk(whole), r.hasLinks)
                  && Depth(r.rich.value) <= 16)
  {
    UntruncatedIsWhole(children, sourceTruncated, domTruncated, readers);
    var (parsed, ctx) := ParseBlocks(children, FreshContext(sourceTruncated, domTruncated), 0, readers);
    NoticeIsSound(parsed, ctx, OMITTED_NOTICE);
    var blocks := DocumentBlocks(parsed, ctx, OMITTED_NOTICE);
    RenderClassicOk(blocks);
    if RichIneligibility(ctx, StatsOf(blocks)).None? {
      WithinRichLimits(blocks, ctx);
    }
  }
}
