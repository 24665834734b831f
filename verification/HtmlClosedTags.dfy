/**
 * Exactly when the output stays in Telegram's closed tag set, in the classic
 * form and for the whole document.
 */
module HtmlClosedTags {
  import opened HtmlTokens
  import opened HtmlNormalize
  import opened HtmlLinks
  import opened HtmlDom
  import opened HtmlInline
  import opened HtmlBlocks
  import opened HtmlBlockLaws
  import opened HtmlRender
  import opened HtmlRenderLaws
  import opened HtmlInk
  import opened HtmlMarks
  import opened HtmlRuns
  import opened HtmlShown
  import opened HtmlWhole
  import opened HtmlClassicInk
  import opened HtmlRawTag
  import Layout = TableLayout

  // ---- Joined parts ---------------------------------------------------------------------------

  predicate AllClosed(parts: seq<seq<Token>>) {
    parts != [] ==> ClosedTags(parts[0]) && AllClosed(parts[1..])
  }

  lemma {:induction false} AllClosedConcat(a: seq<seq<Token>>, b: seq<seq<Token>>)
    ensures AllClosed(a + b) <==> AllClosed(a) && AllClosed(b)
  {
    hide ClosedTags;
    if a == [] {
      assert a + b == b;
    } else {
      assert (a + b)[0] == a[0] && (a + b)[1..] == a[1..] + b;
      AllClosedConcat(a[1..], b);
    }
  }

  lemma OneClosed(part: seq<Token>)
    ensures AllClosed([part]) <==> ClosedTags(part)
  {
    assert [part][1..] == [];
  }

  lemma {:induction false} JoinClosed(parts: seq<seq<Token>>, separator: string)
    ensures ClosedTags(Join(parts, separator)) <==> AllClosed(parts)
  {
    hide ClosedTags;
    if parts == [] {
      TextIsClosed([]);
    } else if |parts| == 1 {
      assert parts[1..] == [];
    } else {
      JoinClosed(parts[1..], separator);
      TextIsClosed(TextTokens(separator));
      ClosedConcat(parts[0], TextTokens(separator));
      ClosedConcat(parts[0] + TextTokens(separator), Join(parts[1..], separator));
    }
  }

  lemma {:induction false} NonEmptyClosed(parts: seq<seq<Token>>)
    ensures AllClosed(NonEmpty(parts)) <==> AllClosed(parts)
  {
    if parts != [] {
      NonEmptyClosed(parts[1..]);
      if parts[0] == [] {
        TextIsClosed([]);
        assert NonEmpty(parts) == NonEmpty(parts[1..]);
      } else {
        assert ([parts[0]] + NonEmpty(parts[1..]))[1..] == NonEmpty(parts[1..]);
      }
    }
  }

  // One part in front of others, written for a content, or left out if it shows nothing.
  lemma PartClosed(written: bool, part: seq<Token>, c: Inline, rest: seq<seq<Token>>, others: seq<Inline>)
    requires Sound(c) && (if written then ClosedTags(part) <==> ClosedTags(c.classic) else c.text == [])
    requires AllClosed(rest) <==> !SomeNative(others)
    ensures AllClosed((if written then [part] else []) + rest) <==> !SomeNative([c] + others)
  {
    hide SoundMarkup, ClosedTags, SomeNative;
    SomeNativeConcat([c], others);
    assert SomeNative([c]) <==> HasNative(c) by { OneNative(c); }
    if written {
      AllClosedConcat([part], rest);
      OneClosed(part);
    } else {
      EmptyNotNative(c);
      assert [] + rest == rest;
    }
  }

  lemma OneNative(c: Inline)
    ensures SomeNative([c]) <==> HasNative(c)
  {
    assert [c][1..] == [];
  }

  lemma LeadClosed(lead: string, ts: seq<Token>)
    ensures ClosedTags(TextTokens(lead) + ts) <==> ClosedTags(ts)
  {
    TextIsClosed(TextTokens(lead));
    ClosedConcat(TextTokens(lead), ts);
  }

  lemma BoldClosed(c: Inline)
    ensures ClosedTags(ClassicBold(c)) <==> ClosedTags(c.classic)
  {
    ClosedWrap(HtmlTokens.B, [], c.classic);
  }

  // ---- Lists and quotes -----------------------------------------------------------------------

  lemma {:induction false} ItemsClosed(ordered: bool, start: int, items: seq<Inline>)
    requires AllSound(items)
    ensures AllClosed(ClassicItems(ordered, start, items)) <==> !SomeNative(items)
    decreases items
  {
    hide SoundMarkup, ClosedTags, HasNative, TextTokens;
    if items != [] {
      var marker := if ordered then Decimal(start) + ". " else BULLET;
      assert Sound(items[0]);
      ItemsClosed(ordered, start + 1, items[1..]);
      LeadClosed(marker, items[0].classic);
      PartClosed(true, TextTokens(marker) + items[0].classic, items[0], ClassicItems(ordered, start + 1, items[1..]),
                 items[1..]);
      assert [items[0]] + items[1..] == items;
    }
  }

  lemma {:induction false} QuotedClosed(ts: seq<Token>)
    ensures ClosedTags(QuoteLines(ts)) <==> ClosedTags(ts)
  {
    hide ClosedTags;
    if ts != [] {
      var first := if ts[0] == Ch('\n') then TextTokens("\n> ") else [ts[0]];
      QuotedClosed(ts[1..]);
      if ts[0] == Ch('\n') {
        TextIsClosed(first);
        TextIsClosed([ts[0]]);
      }
      ClosedConcat(first, QuoteLines(ts[1..]));
      ClosedConcat([ts[0]], ts[1..]);
      assert [ts[0]] + ts[1..] == ts;
    }
  }

  // ---- Tables ---------------------------------------------------------------------------------

  // What a key-value row writes as markup: the values, and the keys that have none. Other keys are escaped.
  function PairContents(row: seq<Cell>, index: nat): seq<Inline>
    decreases |row| - index
  {
    if index >= |row| then []
    else
      var key, value := row[index].content, CellAt(row, index + 1).content;
      [if value.text == [] then key else value] + PairContents(row, index + 2)
  }

  function KeyValueContents(rows: seq<seq<Cell>>): seq<Inline> {
    if rows == [] then [] else PairContents(rows[0], 0) + KeyValueContents(rows[1..])
  }

  lemma {:induction false} PairsClosed(row: seq<Cell>, index: nat)
    requires CellsSound(row)
    ensures AllClosed(KeyValuePairs(row, index)) <==> !SomeNative(PairContents(row, index))
    decreases |row| - index
  {
    hide SoundMarkup, ClosedTags, HasNative, Wrap, TextTokens, SomeNative;
    if index < |row| {
      var key, value := row[index].content, CellAt(row, index + 1).content;
      var heading := if key.text != [] then key.text else "Field " + Decimal(index / 2 + 1);
      var later, others := KeyValuePairs(row, index + 2), PairContents(row, index + 2);
      PlainTextSound("");
      assert row[index] in row && Sound(value);
      PairsClosed(row, index + 2);
      LabelClosed(heading, value.classic);
      if value.text == [] {
        PartClosed(key.text != [], key.classic, key, later, others);
      } else {
        PartClosed(true, Wrap(HtmlTokens.B, [], TextTokens(heading + ":")) + TextTokens(" ") + value.classic, value,
                   later, others);
      }
    } else {
      assert !SomeNative([]) by { NoNative(); }
    }
  }

  lemma NoNative()
    ensures !SomeNative([])
  {
  }

  lemma LabelClosed(heading: string, ts: seq<Token>)
    ensures ClosedTags(Wrap(HtmlTokens.B, [], TextTokens(heading + ":")) + TextTokens(" ") + ts) <==> ClosedTags(ts)
  {
    var shown := Wrap(HtmlTokens.B, [], TextTokens(heading + ":"));
    TextIsClosed(TextTokens(heading + ":"));
    TextIsClosed(TextTokens(" "));
    ClosedWrap(HtmlTokens.B, [], TextTokens(heading + ":"));
    ClosedConcat(shown, TextTokens(" "));
    ClosedConcat(shown + TextTokens(" "), ts);
  }

  // A row in front of others, joined from its parts.
  lemma RowClosed(row: seq<Token>, own: seq<Inline>, rest: seq<seq<Token>>, others: seq<Inline>)
    requires (ClosedTags(row) <==> !SomeNative(own)) && (AllClosed(rest) <==> !SomeNative(others))
    ensures AllClosed([row] + rest) <==> !SomeNative(own + others)
  {
    hide ClosedTags, SomeNative;
    AllClosedConcat([row], rest);
    OneClosed(row);
    SomeNativeConcat(own, others);
  }

  lemma {:induction false} KeyValueRowsClosed(rows: seq<seq<Cell>>)
    requires RowsSound(rows)
    ensures AllClosed(KeyValueRows(rows)) <==> !SomeNative(KeyValueContents(rows))
  {
    hide Sound, ClosedTags, HasNative, Join, KeyValuePairs, PairContents;
    if rows != [] {
      assert CellsSound(rows[0]);
      PairsClosed(rows[0], 0);
      JoinClosed(KeyValuePairs(rows[0], 0), MIDDLE_DOT);
      KeyValueRowsClosed(rows[1..]);
      RowClosed(Join(KeyValuePairs(rows[0], 0), MIDDLE_DOT), PairContents(rows[0], 0), KeyValueRows(rows[1..]),
                KeyValueContents(rows[1..]));
    }
  }

  lemma {:induction false} TextCellsClosed(row: seq<Cell>)
    requires CellsSound(row)
    ensures AllClosed(TextCells(row)) <==> !SomeNative(CellContents(row))
  {
    hide SoundMarkup, ClosedTags, HasNative, SomeNative;
    if row == [] {
      NoNative();
    } else {
      assert row[0] in row;
      TextCellsClosed(row[1..]);
      PartClosed(row[0].content.text != [], row[0].content.classic, row[0].content, TextCells(row[1..]),
                 CellContents(row[1..]));
    }
  }

  lemma {:induction false} GridRowsClosed(rows: seq<seq<Cell>>)
    requires RowsSound(rows)
    ensures AllClosed(GridRows(rows)) <==> !SomeNative(TableContents(rows))
  {
    hide Sound, ClosedTags, HasNative, Join, TextCells, CellContents;
    if rows != [] {
      assert CellsSound(rows[0]);
      TextCellsClosed(rows[0]);
      JoinClosed(TextCells(rows[0]), MIDDLE_DOT);
      GridRowsClosed(rows[1..]);
      RowClosed(Join(TextCells(rows[0]), MIDDLE_DOT), CellContents(rows[0]), GridRows(rows[1..]),
                TableContents(rows[1..]));
    }
  }

  lemma {:induction false} RecordClosed(
    row: seq<Cell>, places: seq<Layout.Rect>, headers: seq<Cell>, headerPlaces: seq<Layout.Rect>, from: nat)
    requires |row| == |places| && |headers| == |headerPlaces| && CellsSound(row) && Ascending(places, from)
    ensures var title, fields := RecordTitle(row, places), RecordFields(row, places, headers, headerPlaces);
            (AllClosed([title] + fields) <==> !SomeNative(CellContents(row))) && (from > 0 ==> title == [])
  {
    hide SoundMarkup, ClosedTags, HasNative, SomeNative, FieldName, ClassicBold, TextTokens;
    if row == [] {
      NoNative();
      NothingClosed();
    } else {
      var c, column := row[0].content, places[0].column;
      var title, fields := RecordTitle(row, places), RecordFields(row, places, headers, headerPlaces);
      var later := RecordFields(row[1..], places[1..], headers, headerPlaces);
      var name := FieldName(headers, headerPlaces, column);
      assert row[0] in row;
      RecordClosed(row[1..], places[1..], headers, headerPlaces, places[0].End());
      assert RecordTitle(row[1..], places[1..]) == [];
      NothingClosed();
      AllClosedConcat([[]], later);
      AllClosedConcat([title], fields);
      if column == 0 {
        assert [] + later == later;
        BoldClosed(c);
        TitleIsClosed(c);
        PartClosed(true, title, c, later, CellContents(row[1..]));
        AllClosedConcat([title], later);
      } else {
        LeadClosed(name + ": ", c.classic);
        PartClosed(c.text != [], TextTokens(name + ": ") + c.classic, c, later, CellContents(row[1..]));
        assert title == [];
      }
    }
  }

  lemma NothingClosed()
    ensures ClosedTags([]) && AllClosed([[]]) && AllClosed([])
  {
    OneClosed([]);
  }

  lemma TitleIsClosed(c: Inline)
    ensures ClosedTags(if c.classic == [] then [] else ClassicBold(c)) <==> ClosedTags(c.classic)
  {
    BoldClosed(c);
  }

  lemma {:induction false} RecordRowsClosed(
    rows: seq<seq<Cell>>, places: seq<seq<Layout.Rect>>, headers: seq<Cell>, headerPlaces: seq<Layout.Rect>)
    requires |rows| == |places| && |headers| == |headerPlaces|
    requires forall i | 0 <= i < |rows| :: |rows[i]| == |places[i]|
    requires RowsSound(rows) && forall p | p in places :: Ascending(p, 0)
    ensures AllClosed(RecordRows(rows, places, headers, headerPlaces)) <==> !SomeNative(TableContents(rows))
  {
    hide Sound, ClosedTags, HasNative, Join, NonEmpty, RecordTitle, RecordFields, Ascending, CellContents;
    if rows != [] {
      assert CellsSound(rows[0]) && places[0] in places;
      var title, fields := RecordTitle(rows[0], places[0]), RecordFields(rows[0], places[0], headers, headerPlaces);
      var joined := Join(fields, MIDDLE_DOT);
      RecordClosed(rows[0], places[0], headers, headerPlaces, 0);
      AllClosedConcat([title], fields);
      JoinClosed(fields, MIDDLE_DOT);
      AllClosedConcat([title], [joined]);
      OneClosed(joined);
      assert [title] + [joined] == [title, joined];
      NonEmptyClosed([title, joined]);
      JoinClosed(NonEmpty([title, joined]), "\n");
      RecordRowsClosed(rows[1..], places[1..], headers, headerPlaces);
      RowClosed(Join(NonEmpty([title, joined]), "\n"), CellContents(rows[0]),
                RecordRows(rows[1..], places[1..], headers, headerPlaces), TableContents(rows[1..]));
    }
  }

  // ---- Blocks -----------------------------------------------------------------------------------

  function ClassicRows(table: TableModel): seq<Inline> {
    if table.kind == KeyValue then KeyValueContents(table.rows)
    else if ShownAsRecords(table) then TableContents(table.rows[1..])
    else TableContents(table.rows)
  }

  // The contents of a block whose markup the classic form writes.
  function ClassicContents(b: Block): seq<Inline> {
    if b.TableBlock? then (if b.table.caption.Some? then [b.table.caption.value] else []) + ClassicRows(b.table)
    else Contents(b)
  }

  function AllClassicContents(blocks: seq<Block>): seq<Inline> {
    if blocks == [] then [] else ClassicContents(blocks[0]) + AllClassicContents(blocks[1..])
  }

  lemma RowsClosed(table: TableModel)
    requires RowsSound(table.rows)
    ensures ClosedTags(ClassicTable(table.(caption := None))) <==> !SomeNative(ClassicRows(table))
  {
    hide ClosedTags, SomeNative, Sound;
    var rows := ClassicTable(table.(caption := None));
    if table.kind == KeyValue {
      KeyValueRowsClosed(table.rows);
      JoinClosed(KeyValueRows(table.rows), "\n");
      assert [] + Join(KeyValueRows(table.rows), "\n") == Join(KeyValueRows(table.rows), "\n");
    } else if ShownAsRecords(table) {
      var places := Layout.Place(TableSpans(table.rows));
      PlacedRowsAscend(TableSpans(table.rows), [], 0);
      var records := RecordRows(table.rows[1..], places[1..], table.rows[0], places[0]);
      RecordRowsClosed(table.rows[1..], places[1..], table.rows[0], places[0]);
      JoinClosed(records, "\n\n");
      assert [] + Join(records, "\n\n") == Join(records, "\n\n");
    } else {
      GridRowsClosed(table.rows);
      JoinClosed(GridRows(table.rows), "\n");
      assert [] + Join(GridRows(table.rows), "\n") == Join(GridRows(table.rows), "\n");
    }
  }

  lemma CaptionClosed(caption: Option<Inline>)
    requires caption.Some? ==> Sound(caption.value)
    ensures ClosedTags(ClassicCaption(caption)) <==> !SomeNative(if caption.Some? then [caption.value] else [])
  {
    hide SoundMarkup;
    NothingClosed();
    if caption.Some? {
      OneNative(caption.value);
      BoldClosed(caption.value);
      TextIsClosed(TextTokens("\n"));
      ClosedConcat(ClassicBold(caption.value), TextTokens("\n"));
    }
  }

  lemma ClassicBlockClosed(b: Block)
    requires BlockSound(b)
    ensures ClosedTags(ClassicBlock(b)) <==> !SomeNative(ClassicContents(b))
  {
    hide ClassicTable, ClassicCaption, ClassicRows, Join, Wrap, QuoteLines, SoundMarkup, TextTokens;
    match b
    case TableBlock(table) =>
      RowsClosed(table);
      CaptionClosed(table.caption);
      CaptionThenRows(table);
      ClosedConcat(ClassicCaption(table.caption), ClassicTable(table.(caption := None)));
      SomeNativeConcat(if table.caption.Some? then [table.caption.value] else [], ClassicRows(table));
    case ListBlock(ordered, start, items) =>
      ItemsClosed(ordered, start, items);
      JoinClosed(ClassicItems(ordered, start, items), "\n");
    case PreBlock(text) =>
      TextIsClosed(TextTokens(text));
      ClosedWrap(HtmlTokens.Pre, [], TextTokens(text));
    case DividerBlock => TextIsClosed(TextTokens(seq(8, _ => '\U{2500}')));
    case QuoteBlock(content) =>
      OneNative(content);
      QuotedClosed(content.classic);
      LeadClosed("> ", QuoteLines(content.classic));
    case HeadingBlock(_, content) =>
      OneNative(content);
      BoldClosed(content);
    case ParagraphBlock(content) => OneNative(content);
    case FooterBlock(content) => OneNative(content);
  }

  lemma {:induction false} ClassicBlocksClosed(blocks: seq<Block>)
    requires BlocksSound(blocks)
    ensures AllClosed(ClassicBlocks(blocks)) <==> !SomeNative(AllClassicContents(blocks))
  {
    hide ClassicBlock, ClassicContents, BlockSound, ClosedTags, HasNative;
    if blocks != [] {
      assert BlockSound(blocks[0]);
      ClassicBlockClosed(blocks[0]);
      ClassicBlocksClosed(blocks[1..]);
      RowClosed(ClassicBlock(blocks[0]), ClassicContents(blocks[0]), ClassicBlocks(blocks[1..]),
                AllClassicContents(blocks[1..]));
    }
  }

  /** For all sound blocks: the classic form stays in the closed set exactly if no content it writes holds the tag. */
  lemma ClassicClosedExactlyWhen(blocks: seq<Block>)
    requires BlocksSound(blocks)
    ensures ClosedTags(RenderClassic(blocks)) <==> !SomeNative(AllClassicContents(blocks))
  {
    hide ClassicBlocks, AllClassicContents, Join, NonEmpty, ClosedTags, Alike;
    var joined := Join(NonEmpty(ClassicBlocks(blocks)), "\n\n");
    ClassicBlocksClosed(blocks);
    NonEmptyClosed(ClassicBlocks(blocks));
    JoinClosed(NonEmpty(ClassicBlocks(blocks)), "\n\n");
    TrimAlike(joined);
    AlikeClosed(joined, Trim(joined));
  }

  // ---- Classic and rich compared ------------------------------------------------------------------

  lemma CellNative(row: seq<Cell>, k: nat)
    ensures HasNative(CellAt(row, k).content) ==> SomeNative(CellContents(row))
  {
    if k < |row| {
      assert CellContents(row)[k] == row[k].content;
      if HasNative(row[k].content) {
        NativeAt(CellContents(row), k);
      }
    } else {
      TextNotNative("");
    }
  }

  lemma {:induction false} NativeAt(items: seq<Inline>, k: nat)
    requires k < |items| && HasNative(items[k])
    ensures SomeNative(items)
  {
    if k > 0 {
      NativeAt(items[1..], k - 1);
    }
  }

  lemma {:induction false} PairsWithinRow(row: seq<Cell>, index: nat)
    ensures SomeNative(PairContents(row, index)) ==> SomeNative(CellContents(row))
    decreases |row| - index
  {
    hide HasNative;
    if index < |row| {
      var key, value := row[index].content, CellAt(row, index + 1).content;
      PairsWithinRow(row, index + 2);
      CellNative(row, index);
      CellNative(row, index + 1);
      SomeNativeConcat([if value.text == [] then key else value], PairContents(row, index + 2));
      OneNative(if value.text == [] then key else value);
    }
  }

  lemma {:induction false} PairsWithinRows(rows: seq<seq<Cell>>)
    ensures SomeNative(KeyValueContents(rows)) ==> SomeNative(TableContents(rows))
  {
    hide PairContents, CellContents, SomeNative;
    if rows == [] {
      NoNative();
    } else {
      PairsWithinRow(rows[0], 0);
      PairsWithinRows(rows[1..]);
      SomeNativeConcat(PairContents(rows[0], 0), KeyValueContents(rows[1..]));
      SomeNativeConcat(CellContents(rows[0]), TableContents(rows[1..]));
    }
  }

  // The classic form writes the markup of no content that the rich form does not write.
  lemma ClassicWithinContents(b: Block)
    ensures SomeNative(ClassicContents(b)) ==> SomeNative(Contents(b))
  {
    hide SomeNative;
    if b.TableBlock? {
      var caption := if b.table.caption.Some? then [b.table.caption.value] else [];
      PairsWithinRows(b.table.rows);
      if ShownAsRecords(b.table) {
        SomeNativeConcat(CellContents(b.table.rows[0]), TableContents(b.table.rows[1..]));
      }
      SomeNativeConcat(caption, ClassicRows(b.table));
      SomeNativeConcat(caption, TableContents(b.table.rows));
    }
  }

  lemma {:induction false} ClassicWithinRich(blocks: seq<Block>)
    requires BlocksSound(blocks)
    ensures SomeNative(AllClassicContents(blocks)) ==> PiecesNative(BlocksPieces(blocks))
    ensures (forall b | b in blocks :: !b.TableBlock?)
            ==> (SomeNative(AllClassicContents(blocks)) <==> PiecesNative(BlocksPieces(blocks)))
  {
    hide SomeNative, PiecesNative, BlockSound, Contents, BlockPieces;
    if blocks == [] {
      NoNative();
      NoPieces();
    } else {
      assert BlockSound(blocks[0]) && blocks[0] in blocks && forall b | b in blocks[1..] :: b in blocks;
      ClassicWithinRich(blocks[1..]);
      ClassicWithinContents(blocks[0]);
      BlockNative(blocks[0]);
      SomeNativeConcat(ClassicContents(blocks[0]), AllClassicContents(blocks[1..]));
      PiecesNativeConcat(BlockPieces(blocks[0]), BlocksPieces(blocks[1..]));
    }
  }

  lemma NoPieces()
    ensures !PiecesNative([])
  {
  }

  // ---- The document ---------------------------------------------------------------------------------

  // Neither form leaves the closed set.
  predicate BothClosed(blocks: seq<Block>) {
    ClosedTags(RenderRich(blocks)) && ClosedTags(RenderClassic(blocks))
  }

  // The forms of the whole tree, parsed without limits.
  lemma WholeClosedExactlyWhen(children: seq<Node>, readers: Readers)
    requires BlocksSound(WholeDocument(children, readers))
    ensures var whole := WholeDocument(children, readers);
            && (BothClosed(whole) <==> !TreeWritesNative(children, readers))
            && (ClosedTags(RenderRich(whole)) <==> !TreeWritesNative(children, readers))
            && ((forall b | b in whole :: !b.TableBlock?) ==>
                  (ClosedTags(RenderClassic(whole)) <==> !TreeWritesNative(children, readers)))
  {
    hide ParseBlocks, RenderClassic, RenderRich, TreeRuns, ClosedTags, BlocksPieces, RunsPieces,
         PiecesNative, SomeNative, RunsWriteNative, AllClassicContents, BlockSound;
    var whole := WholeDocument(children, readers);
    ParseBlocksShown(children, FREE, 0, readers);
    RunsNative(TreeRuns(children, [], readers), readers);
    RichNative(whole);
    ClassicClosedExactlyWhen(whole);
    ClassicWithinRich(whole);
  }

  /**
   * For every tree that no limit cut short: both forms stay in Telegram's
   * closed tag set exactly if the tree does not write the native tag. The rich
   * form by itself is as exact; so is the classic form without data tables,
   * where some labels are shown as text only.
   */
  lemma TagsClosedExactlyWhen(children: seq<Node>, sourceTruncated: bool, domTruncated: bool, readers: Readers)
    requires RenderDocument(children, sourceTruncated, domTruncated, readers).reason != Some(InputLimit)
    ensures var r := RenderDocument(children, sourceTruncated, domTruncated, readers);
            var whole := WholeDocument(children, readers);
            && r.classic == RenderClassic(whole) && (r.rich.Some? ==> r.rich.value == RenderRich(whole))
            && (BothClosed(whole) <==> !TreeWritesNative(children, readers))
            && (ClosedTags(RenderRich(whole)) <==> !TreeWritesNative(children, readers))
            && ((forall b | b in whole :: !b.TableBlock?)
                ==> (ClosedTags(r.classic) <==> !TreeWritesNative(children, readers)))
  {
    hide ParseBlocks, RenderClassic, RenderRich, StatsOf, HasLinks, ClosedTags, TreeWritesNative, BothClosed;
    UntruncatedIsWhole(children, sourceTruncated, domTruncated, readers);
    WholeClosedExactlyWhen(children, readers);
  }

  /**
   * For every tree, cut short or not: the classic form stays in the closed set exactly
   * if no content it writes holds the tag.
   */
  lemma ClassicDocumentClosed(children: seq<Node>, sourceTruncated: bool, domTruncated: bool, readers: Readers)
    ensures var (parsed, ctx) := ParseBlocks(children, FreshContext(sourceTruncated, domTruncated), 0, readers);
            ClosedTags(RenderDocument(children, sourceTruncated, domTruncated, readers).classic) <==>
            !SomeNative(AllClassicContents(DocumentBlocks(parsed, ctx, OMITTED_NOTICE)))
  {
    hide RenderClassic, RenderRich, StatsOf, HasLinks, ClosedTags, SomeNative, AllClassicContents, BlockSound;
    UntruncatedIsWhole(children, sourceTruncated, domTruncated, readers);
    var (parsed, ctx) := ParseBlocks(children, FreshContext(sourceTruncated, domTruncated), 0, readers);
    NoticeIsSound(parsed, ctx, OMITTED_NOTICE);
    ClassicClosedExactlyWhen(DocumentBlocks(parsed, ctx, OMITTED_NOTICE));
  }

  // ---- The tag is written -----------------------------------------------------------------------------

  // <constructor>Hi</constructor>
  const CONSTRUCTOR := Element(Other("constructor"), PLAIN, None, [Text("Hi")])

  /** The tag is reachable: this document leaves the closed set in both forms. */
  lemma ConstructorIsWritten(readers: Readers)
    ensures TreeWritesNative([CONSTRUCTOR], readers)
    ensures var whole := WholeDocument([CONSTRUCTOR], readers);
            !ClosedTags(RenderRich(whole)) && !ClosedTags(RenderClassic(whole))
  {
    hide RenderRich, RenderClassic, TreeRuns, InlineInk, WholeDocument, ClosedTags, KeepsMarkup;
    var run := Inlined([CONSTRUCTOR]);
    ConstructorRun(readers);
    ConstructorInk(readers);
    GreetingIsPlain(readers);
    assert NodeWritesNative(CONSTRUCTOR, true, readers);
    assert WritesNative([CONSTRUCTOR], true, readers);
    assert RunWritesNative(run, readers);
    OneParagraph(readers);
    WholeClosedExactlyWhen([CONSTRUCTOR], readers);
  }

  lemma ConstructorRun(readers: Readers)
    ensures TreeRuns([CONSTRUCTOR], [], readers) == [Inlined([CONSTRUCTOR])]
  {
    assert JoinsRun(CONSTRUCTOR) && !OpensBlock(CONSTRUCTOR);
    assert [] + [CONSTRUCTOR] == [CONSTRUCTOR] && [CONSTRUCTOR][1..] == [];
    assert TreeRuns([], [CONSTRUCTOR], readers) == [Inlined([CONSTRUCTOR])];
  }

  lemma ConstructorInk(readers: Readers)
    ensures InlineInk([CONSTRUCTOR], readers, true) == "Hi"
  {
    assert NonSpace("Hi") == "Hi";
    assert InlineInk([Text("Hi")], readers, true) == "Hi" + InlineInk([], readers, true) == "Hi";
    assert NodeInk(CONSTRUCTOR, readers, true) == [] + "Hi" == "Hi";
    assert InlineInk([CONSTRUCTOR], readers, true) == "Hi" + InlineInk([], readers, true) == "Hi";
  }

  lemma OneParagraph(readers: Readers)
    ensures BlocksSound(WholeDocument([CONSTRUCTOR], readers))
    ensures forall b | b in WholeDocument([CONSTRUCTOR], readers) :: !b.TableBlock?
  {
    hide ParseInline, Sound;
    ParseInlineSound([CONSTRUCTOR], FREE, 1, true, true, readers);
    var p := Progress([], [], FREE);
    assert VisitNodes([CONSTRUCTOR], p, 0, readers) == VisitNodes([], Progress([CONSTRUCTOR], [], FREE), 0, readers);
  }

  lemma GreetingIsPlain(readers: Readers)
    ensures HasInlineText(CONSTRUCTOR.children) && !HoldsCode(CONSTRUCTOR.children, true, readers)
  {
    var nodes := [Text("Hi")];
    assert HasInlineText(nodes) by { assert NodeHasText(nodes[0]); }
    assert nodes[1..] == [];
  }
}
