/**
 * The links of both rendered forms are those of the contents they are made of.
 */
module HtmlBlockLinks {
  import opened HtmlTokens
  import opened HtmlNormalize
  import opened HtmlLinks
  import opened HtmlDom
  import opened HtmlInline
  import opened HtmlBlocks
  import opened HtmlBlockLaws
  import opened HtmlRender
  import opened HtmlRenderLaws
  import opened HtmlTargets
  import opened HtmlClassicInk
  import opened HtmlClosedTags
  import Layout = TableLayout

  /** Markup with exactly these links, none left open. */
  ghost predicate LinksTo(ts: seq<Token>, targets: seq<Target>) {
    ReadLinks(ts, None) == (targets, None)
  }

  // The links of contents, in one of the two markups.
  function ContentLinks(items: seq<Inline>, rich: bool): seq<Target> {
    if items == [] then [] else Links(MarkupOf(items[0], rich)) + ContentLinks(items[1..], rich)
  }

  lemma LinksToBoth(a: seq<Token>, x: seq<Target>, b: seq<Token>, y: seq<Target>)
    requires LinksTo(a, x) && LinksTo(b, y)
    ensures LinksTo(a + b, x + y)
  {
    ReadLinksConcat(a, b, None);
  }

  lemma LinksToNothing()
    ensures LinksTo([], [])
  {
  }

  lemma LinksToText(text: string)
    ensures LinksTo(TextTokens(text), [])
  {
    PlainTextLinks(text);
    ClosedAtEnd(TextTokens(text));
  }

  lemma LinksToContent(c: Inline, rich: bool)
    requires Sound(c)
    ensures LinksTo(MarkupOf(c, rich), Links(MarkupOf(c, rich)))
  {
    ClosedAtEnd(MarkupOf(c, rich));
  }

  lemma OneTokenLinks(t: Token)
    requires ReadToken(t, None) == ([], None)
    ensures LinksTo([t], [])
  {
    var none: seq<Target> := [];
    assert [t][1..] == [] && none + none == none;
  }

  lemma LinksToWrapped(k: Kind, attrs: seq<Attr>, ts: seq<Token>, targets: seq<Target>)
    requires !k.A? && LinksTo(ts, targets)
    ensures LinksTo(Wrap(k, attrs, ts), targets)
  {
    var open, close := [Open(k, attrs)], [Close(k)];
    OneTokenLinks(Open(k, attrs));
    OneTokenLinks(Close(k));
    LinksToBoth(open, [], ts, targets);
    LinksToBoth(open + ts, [] + targets, close, []);
    assert [] + targets + [] == targets;
  }

  lemma {:induction false} ContentLinksConcat(a: seq<Inline>, b: seq<Inline>, rich: bool)
    ensures ContentLinks(a + b, rich) == ContentLinks(a, rich) + ContentLinks(b, rich)
  {
    hide Links, MarkupOf;
    if a == [] {
      assert a + b == b;
    } else {
      assert (a + b)[0] == a[0] && (a + b)[1..] == a[1..] + b;
      ContentLinksConcat(a[1..], b, rich);
      var own, x, y := Links(MarkupOf(a[0], rich)), ContentLinks(a[1..], rich), ContentLinks(b, rich);
      assert own + (x + y) == own + x + y;
    }
  }

  lemma OneContentLinks(c: Inline, rich: bool)
    ensures ContentLinks([c], rich) == Links(MarkupOf(c, rich))
  {
    assert [c][1..] == [];
    assert Links(MarkupOf(c, rich)) + [] == Links(MarkupOf(c, rich));
  }

  // ---- The rich form --------------------------------------------------------------------------

  // An element around content, before what follows it.
  lemma WrappedLinksNext(k: Kind, attrs: seq<Attr>, c: Inline, ts: seq<Token>, rest: seq<Inline>)
    requires Sound(c) && !k.A? && LinksTo(ts, ContentLinks(rest, true))
    ensures LinksTo(Wrap(k, attrs, c.rich) + ts, ContentLinks([c] + rest, true))
  {
    hide LinksTo, SoundMarkup, Wrap, Links;
    LinksToContent(c, true);
    LinksToWrapped(k, attrs, c.rich, Links(c.rich));
    LinksToBoth(Wrap(k, attrs, c.rich), Links(c.rich), ts, ContentLinks(rest, true));
    assert ([c] + rest)[1..] == rest;
  }

  lemma {:induction false} RichItemsLinks(items: seq<Inline>)
    requires AllSound(items)
    ensures LinksTo(RichItems(items), ContentLinks(items, true))
  {
    hide LinksTo, SoundMarkup, Wrap, Links;
    if items == [] {
      LinksToNothing();
    } else {
      assert Sound(items[0]);
      RichItemsLinks(items[1..]);
      WrappedLinksNext(Kind.Li, [], items[0], RichItems(items[1..]), items[1..]);
      assert [items[0]] + items[1..] == items;
    }
  }

  lemma {:induction false} RichCellsLinks(row: seq<Cell>)
    requires CellsSound(row)
    ensures LinksTo(RichCells(row), ContentLinks(CellContents(row), true))
  {
    hide LinksTo, SoundMarkup, Wrap, Links, CellAttrs;
    if row == [] {
      LinksToNothing();
    } else {
      assert row[0] in row;
      RichCellsLinks(row[1..]);
      WrappedLinksNext(if row[0].isHeader then Kind.Th else Kind.Td, CellAttrs(row[0]), row[0].content,
                       RichCells(row[1..]), CellContents(row[1..]));
    }
  }

  lemma {:induction false} RichRowsLinks(rows: seq<seq<Cell>>)
    requires RowsSound(rows)
    ensures LinksTo(RichRows(rows), ContentLinks(TableContents(rows), true))
  {
    hide LinksTo, Sound, Wrap, ContentLinks, CellContents, RichCells;
    if rows == [] {
      LinksToNothing();
      assert ContentLinks([], true) == [] by { NoContentLinks(); }
    } else {
      var row, rest := CellContents(rows[0]), TableContents(rows[1..]);
      assert CellsSound(rows[0]);
      RichCellsLinks(rows[0]);
      RichRowsLinks(rows[1..]);
      LinksToWrapped(Kind.Tr, [], RichCells(rows[0]), ContentLinks(row, true));
      LinksToBoth(Wrap(Kind.Tr, [], RichCells(rows[0])), ContentLinks(row, true), RichRows(rows[1..]),
                  ContentLinks(rest, true));
      ContentLinksConcat(row, rest, true);
    }
  }

  lemma NoContentLinks()
    ensures ContentLinks([], true) == [] == ContentLinks([], false)
  {
  }

  lemma RichCaptionLinks(caption: Option<Inline>)
    requires caption.Some? ==> Sound(caption.value)
    ensures LinksTo(RichCaption(caption), ContentLinks(CaptionContents(caption), true))
  {
    hide SoundMarkup, Wrap;
    LinksToNothing();
    if caption.Some? {
      LinksToContent(caption.value, true);
      OneContentLinks(caption.value, true);
      LinksToWrapped(Kind.Caption, [], caption.value.rich, Links(caption.value.rich));
    }
  }

  lemma RichBlockLinks(b: Block)
    requires BlockSound(b)
    ensures LinksTo(RichBlock(b), ContentLinks(Contents(b), true))
  {
    hide LinksTo, SoundMarkup, Wrap, Links, ContentLinks, RichItems, RichRows, RichCaption, TableContents;
    NoContentLinks();
    match b
    case PreBlock(text) =>
      LinksToText(text);
      LinksToWrapped(Kind.Pre, [], TextTokens(text), []);
    case DividerBlock => RuleHasNoLinks();
    case ListBlock(ordered, start, items) =>
      RichItemsLinks(items);
      LinksToWrapped(if ordered then Kind.Ol else Kind.Ul,
                     if ordered && start != 1 then [Valued(AttrName.Start, Decimal(start))] else [],
                     RichItems(items), ContentLinks(items, true));
    case TableBlock(table) =>
      var caption, cells := CaptionContents(table.caption), TableContents(table.rows);
      RichCaptionLinks(table.caption);
      RichRowsLinks(table.rows);
      LinksToBoth(RichCaption(table.caption), ContentLinks(caption, true), RichRows(table.rows),
                  ContentLinks(cells, true));
      ContentLinksConcat(caption, cells, true);
      LinksToWrapped(Kind.Table, [Bordered, Compact], RichCaption(table.caption) + RichRows(table.rows),
                     ContentLinks(caption + cells, true));
    case ParagraphBlock(content) => RichContentLinks(Kind.P, content);
    case HeadingBlock(level, content) => RichContentLinks(Kind.H(level), content);
    case QuoteBlock(content) => RichContentLinks(Kind.Blockquote, content);
    case FooterBlock(content) => RichContentLinks(Kind.Footer, content);
  }

  lemma RuleHasNoLinks()
    ensures LinksTo([Token.Hr], [])
  {
    OneTokenLinks(Token.Hr);
  }

  lemma RichContentLinks(k: Kind, c: Inline)
    requires Sound(c) && !k.A?
    ensures LinksTo(Wrap(k, [], c.rich), ContentLinks([c], true))
  {
    hide SoundMarkup, Wrap, Links, LinksTo;
    LinksToContent(c, true);
    LinksToWrapped(k, [], c.rich, Links(c.rich));
    OneContentLinks(c, true);
  }

  function AllContents(blocks: seq<Block>): seq<Inline> {
    if blocks == [] then [] else Contents(blocks[0]) + AllContents(blocks[1..])
  }

  /** For all sound blocks: the links of the rich form are those of all contents, in order. */
  lemma {:induction false} RenderRichLinks(blocks: seq<Block>)
    requires BlocksSound(blocks)
    ensures LinksTo(RenderRich(blocks), ContentLinks(AllContents(blocks), true))
  {
    hide LinksTo, BlockSound, RichBlock, Contents, ContentLinks;
    NoContentLinks();
    if blocks == [] {
      LinksToNothing();
    } else {
      assert BlockSound(blocks[0]);
      var first, rest := Contents(blocks[0]), AllContents(blocks[1..]);
      RichBlockLinks(blocks[0]);
      RenderRichLinks(blocks[1..]);
      LinksToBoth(RichBlock(blocks[0]), ContentLinks(first, true), RenderRich(blocks[1..]), ContentLinks(rest, true));
      ContentLinksConcat(first, rest, true);
    }
  }

  // ---- Joined parts ---------------------------------------------------------------------------

  function PartsLinks(parts: seq<seq<Token>>): seq<Target> {
    if parts == [] then [] else Links(parts[0]) + PartsLinks(parts[1..])
  }

  /** Parts with exactly these links, none left open in any. */
  ghost predicate PartsLinkTo(parts: seq<seq<Token>>, targets: seq<Target>) {
    (forall p | p in parts :: LinksTo(p, Links(p))) && PartsLinks(parts) == targets
  }

  lemma {:induction false} PartsLinkToBoth(
    a: seq<seq<Token>>, x: seq<Target>, b: seq<seq<Token>>, y: seq<Target>)
    requires PartsLinkTo(a, x) && PartsLinkTo(b, y)
    ensures PartsLinkTo(a + b, x + y)
    decreases |a|
  {
    hide LinksTo, Links;
    if a == [] {
      assert a + b == b && x + y == y;
    } else {
      assert (a + b)[0] == a[0] && (a + b)[1..] == a[1..] + b;
      var own, later := Links(a[0]), PartsLinks(a[1..]);
      PartsLinkToBoth(a[1..], later, b, y);
      assert own + (later + y) == own + later + y;
    }
  }

  lemma OnePartLinks(part: seq<Token>, targets: seq<Target>)
    requires LinksTo(part, targets)
    ensures PartsLinkTo([part], targets)
  {
    assert [part][1..] == [];
    assert targets + [] == targets;
  }

  lemma NoPartsLink()
    ensures PartsLinkTo([], [])
  {
  }

  lemma {:induction false} JoinLinks(parts: seq<seq<Token>>, separator: string)
    requires forall p | p in parts :: LinksTo(p, Links(p))
    ensures LinksTo(Join(parts, separator), PartsLinks(parts))
  {
    hide LinksTo, Links;
    if parts == [] {
      LinksToNothing();
    } else if |parts| == 1 {
      assert parts[1..] == [] && parts[0] in parts;
      assert Links(parts[0]) + [] == Links(parts[0]);
    } else {
      var own, later := Links(parts[0]), PartsLinks(parts[1..]);
      assert parts[0] in parts;
      JoinLinks(parts[1..], separator);
      LinksToText(separator);
      LinksToBoth(parts[0], own, TextTokens(separator), []);
      LinksToBoth(parts[0] + TextTokens(separator), own + [], Join(parts[1..], separator), later);
      assert own + [] + later == own + later;
    }
  }

  lemma {:induction false} NonEmptyLinks(parts: seq<seq<Token>>)
    ensures PartsLinks(NonEmpty(parts)) == PartsLinks(parts)
    ensures forall p | p in NonEmpty(parts) :: p in parts
  {
    hide Links;
    if parts != [] {
      NonEmptyLinks(parts[1..]);
      if parts[0] == [] {
        NoLinksInNothing();
        assert NonEmpty(parts) == NonEmpty(parts[1..]);
        assert [] + PartsLinks(parts[1..]) == PartsLinks(parts[1..]);
      } else {
        assert ([parts[0]] + NonEmpty(parts[1..]))[1..] == NonEmpty(parts[1..]);
      }
    }
  }

  // One part in front of others, written for a content, or left out if it shows nothing.
  lemma PartLinksNext(written: bool, part: seq<Token>, c: Inline, rest: seq<seq<Token>>, others: seq<Inline>)
    requires Sound(c) && (if written then LinksTo(part, Links(c.classic)) else c.text == [])
    requires PartsLinkTo(rest, ContentLinks(others, false))
    ensures PartsLinkTo((if written then [part] else []) + rest, ContentLinks([c] + others, false))
  {
    hide LinksTo, SoundMarkup, PartsLinkTo, Links;
    assert ([c] + others)[1..] == others;
    var targets := ContentLinks(others, false);
    if written {
      OnePartLinks(part, Links(c.classic));
      PartsLinkToBoth([part], Links(c.classic), rest, targets);
    } else {
      NoLinksInNothing();
      assert [] + rest == rest && [] + targets == targets;
    }
  }

  lemma LeadLinks(lead: string, ts: seq<Token>, targets: seq<Target>)
    requires LinksTo(ts, targets)
    ensures LinksTo(TextTokens(lead) + ts, targets)
  {
    hide LinksTo;
    LinksToText(lead);
    LinksToBoth(TextTokens(lead), [], ts, targets);
    assert [] + targets == targets;
  }

  lemma BoldLinks(c: Inline)
    requires Sound(c)
    ensures LinksTo(ClassicBold(c), Links(c.classic))
  {
    hide LinksTo, SoundMarkup, Wrap, Links;
    LinksToContent(c, false);
    LinksToWrapped(HtmlTokens.B, [], c.classic, Links(c.classic));
  }

  // ---- Lists and quotes -----------------------------------------------------------------------

  lemma {:induction false} ItemsLinks(ordered: bool, start: int, items: seq<Inline>)
    requires AllSound(items)
    ensures PartsLinkTo(ClassicItems(ordered, start, items), ContentLinks(items, false))
    decreases items
  {
    hide LinksTo, SoundMarkup, PartsLinkTo, TextTokens, Links;
    if items == [] {
      NoPartsLink();
    } else {
      var marker := if ordered then Decimal(start) + ". " else BULLET;
      assert Sound(items[0]);
      ItemsLinks(ordered, start + 1, items[1..]);
      LinksToContent(items[0], false);
      LeadLinks(marker, items[0].classic, Links(items[0].classic));
      PartLinksNext(true, TextTokens(marker) + items[0].classic, items[0],
                    ClassicItems(ordered, start + 1, items[1..]), items[1..]);
      assert [items[0]] + items[1..] == items;
    }
  }

  /** `shown` is `text` with quote marks in it, or the same. */
  predicate Quotes(shown: string, text: string) {
    || shown == text
    || (shown != [] && shown[|shown| - 1] == '>' && Quotes(shown[..|shown| - 1], text))
    || (shown != [] && text != [] && shown[|shown| - 1] == text[|text| - 1]
        && Quotes(shown[..|shown| - 1], text[..|text| - 1]))
  }

  /** The same links, apart from quote marks in what they show. */
  predicate SameLinks(a: seq<Target>, b: seq<Target>) {
    |a| == |b| && forall i | 0 <= i < |a| :: a[i].href == b[i].href && Quotes(a[i].shown, b[i].shown)
  }

  predicate SameOpen(a: Option<Target>, b: Option<Target>) {
    a == b || (a.Some? && b.Some? && a.value.href == b.value.href && Quotes(a.value.shown, b.value.shown))
  }

  lemma QuotesMore(shown: string, text: string, more: string)
    requires Quotes(shown, text) && |more| <= 1
    ensures Quotes(shown + more, text + more)
    ensures Quotes(shown + ">", text)
  {
    assert (shown + ">")[..|shown|] == shown;
    if more == [] {
      assert shown + more == shown && text + more == text;
    } else {
      assert (shown + more)[..|shown|] == shown && (text + more)[..|text|] == text;
    }
  }

  // One token, quoted, read behind an open link that may already hold quote marks.
  lemma QuotedToken(t: Token, a: Option<Target>, b: Option<Target>)
    requires SameOpen(a, b)
    ensures var x := ReadLinks(if t == Ch('\n') then TextTokens("\n> ") else [t], a);
            var y := ReadToken(t, b);
            SameLinks(x.0, y.0) && SameOpen(x.1, y.1)
  {
    var own := if t.Ch? && !IsSpace(t.c) then [t.c] else [];
    if a.Some? {
      QuotesMore(a.value.shown, b.value.shown, own);
    }
    if t == Ch('\n') {
      NewlineQuoted(a);
      assert b.Some? ==> b.value.shown + [] == b.value.shown;
    } else {
      assert [t][1..] == [];
    }
  }

  lemma NewlineQuoted(open: Option<Target>)
    ensures ReadLinks(TextTokens("\n> "), open) == ([], Showing(open, ">"))
  {
    var ts := TextTokens("\n> ");
    ScanText(ts, []);
    ReadInside(ts, [], open);
    VisibleOfText("\n> ");
    assert "\n> "[1..] == "> " && "> "[1..] == " " && " "[1..] == "";
    assert NonSpace("\n> ") == NonSpace("> ") == ">" + NonSpace(" ") == ">";
  }

  lemma SameNothing()
    ensures SameLinks([], [])
  {
  }

  lemma SameBoth(a: seq<Target>, b: seq<Target>, c: seq<Target>, d: seq<Target>)
    requires SameLinks(a, b) && SameLinks(c, d)
    ensures SameLinks(a + c, b + d)
  {
    hide Quotes;
  }

  lemma {:induction false} QuotedRead(ts: seq<Token>, a: Option<Target>, b: Option<Target>)
    requires SameOpen(a, b)
    ensures var x, y := ReadLinks(QuoteLines(ts), a), ReadLinks(ts, b);
            SameLinks(x.0, y.0) && SameOpen(x.1, y.1)
  {
    hide ReadToken, SameLinks, SameOpen, TextTokens;
    if ts == [] {
      SameNothing();
    } else {
      var first := if ts[0] == Ch('\n') then TextTokens("\n> ") else [ts[0]];
      var x, y := ReadLinks(first, a), ReadToken(ts[0], b);
      QuotedToken(ts[0], a, b);
      QuotedRead(ts[1..], x.1, y.1);
      ReadLinksConcat(first, QuoteLines(ts[1..]), a);
      SameBoth(x.0, y.0, ReadLinks(QuoteLines(ts[1..]), x.1).0, ReadLinks(ts[1..], y.1).0);
    }
  }

  lemma {:induction false} QuotedLinks(c: Inline)
    requires Sound(c)
    ensures var ts := TextTokens("> ") + QuoteLines(c.classic);
            LinksTo(ts, Links(ts)) && SameLinks(Links(ts), Links(c.classic))
  {
    hide QuoteLines, TextTokens, SoundMarkup;
    LinksToContent(c, false);
    QuotedRead(c.classic, None, None);
    var quoted := QuoteLines(c.classic);
    assert LinksTo(quoted, Links(quoted));
    LeadLinks("> ", quoted, Links(quoted));
  }

  // ---- Tables ---------------------------------------------------------------------------------

  lemma LabelLinks(heading: string, ts: seq<Token>, targets: seq<Target>)
    requires LinksTo(ts, targets)
    ensures LinksTo(Wrap(HtmlTokens.B, [], TextTokens(heading + ":")) + TextTokens(" ") + ts, targets)
  {
    hide LinksTo, Wrap;
    var bold := Wrap(HtmlTokens.B, [], TextTokens(heading + ":"));
    LinksToText(heading + ":");
    LinksToText(" ");
    LinksToWrapped(HtmlTokens.B, [], TextTokens(heading + ":"), []);
    LinksToBoth(bold, [], TextTokens(" "), []);
    LinksToBoth(bold + TextTokens(" "), [] + [], ts, targets);
    assert [] + [] + targets == targets;
  }

  lemma {:induction false} PairsLinks(row: seq<Cell>, index: nat)
    requires CellsSound(row)
    ensures PartsLinkTo(KeyValuePairs(row, index), ContentLinks(PairContents(row, index), false))
    decreases |row| - index
  {
    hide LinksTo, SoundMarkup, PartsLinkTo, Wrap, TextTokens, Links, ContentLinks;
    if index < |row| {
      var key, value := row[index].content, CellAt(row, index + 1).content;
      var heading := if key.text != [] then key.text else "Field " + Decimal(index / 2 + 1);
      var later, others := KeyValuePairs(row, index + 2), PairContents(row, index + 2);
      PlainTextSound("");
      assert row[index] in row && Sound(value);
      PairsLinks(row, index + 2);
      LinksToContent(key, false);
      LinksToContent(value, false);
      LabelLinks(heading, value.classic, Links(value.classic));
      if value.text == [] {
        PartLinksNext(key.text != [], key.classic, key, later, others);
      } else {
        PartLinksNext(true, Wrap(HtmlTokens.B, [], TextTokens(heading + ":")) + TextTokens(" ") + value.classic, value,
                      later, others);
      }
    } else {
      NoPartsLink();
      NoContentLinks();
    }
  }

  // A row in front of others, joined from its parts.
  lemma RowLinksNext(row: seq<Token>, own: seq<Inline>, rest: seq<seq<Token>>, others: seq<Inline>)
    requires LinksTo(row, ContentLinks(own, false)) && PartsLinkTo(rest, ContentLinks(others, false))
    ensures PartsLinkTo([row] + rest, ContentLinks(own + others, false))
  {
    hide LinksTo, PartsLinkTo, ContentLinks;
    OnePartLinks(row, ContentLinks(own, false));
    PartsLinkToBoth([row], ContentLinks(own, false), rest, ContentLinks(others, false));
    ContentLinksConcat(own, others, false);
  }

  lemma {:induction false} KeyValueRowsLinks(rows: seq<seq<Cell>>)
    requires RowsSound(rows)
    ensures PartsLinkTo(KeyValueRows(rows), ContentLinks(KeyValueContents(rows), false))
  {
    hide LinksTo, Sound, Join, KeyValuePairs, PairContents, ContentLinks, Links, PartsLinks;
    if rows == [] {
      NoPartsLink();
      NoContentLinks();
    } else {
      assert CellsSound(rows[0]);
      PairsLinks(rows[0], 0);
      JoinLinks(KeyValuePairs(rows[0], 0), MIDDLE_DOT);
      KeyValueRowsLinks(rows[1..]);
      RowLinksNext(Join(KeyValuePairs(rows[0], 0), MIDDLE_DOT), PairContents(rows[0], 0), KeyValueRows(rows[1..]),
                   KeyValueContents(rows[1..]));
    }
  }

  lemma {:induction false} TextCellsLinks(row: seq<Cell>)
    requires CellsSound(row)
    ensures PartsLinkTo(TextCells(row), ContentLinks(CellContents(row), false))
  {
    hide LinksTo, SoundMarkup, PartsLinkTo, Links, ContentLinks;
    if row == [] {
      NoPartsLink();
      NoContentLinks();
    } else {
      assert row[0] in row;
      TextCellsLinks(row[1..]);
      LinksToContent(row[0].content, false);
      PartLinksNext(row[0].content.text != [], row[0].content.classic, row[0].content, TextCells(row[1..]),
                    CellContents(row[1..]));
    }
  }

  lemma {:induction false} GridRowsLinks(rows: seq<seq<Cell>>)
    requires RowsSound(rows)
    ensures PartsLinkTo(GridRows(rows), ContentLinks(TableContents(rows), false))
  {
    hide LinksTo, Sound, Join, TextCells, CellContents, ContentLinks, Links, PartsLinks;
    if rows == [] {
      NoPartsLink();
      NoContentLinks();
    } else {
      assert CellsSound(rows[0]);
      TextCellsLinks(rows[0]);
      JoinLinks(TextCells(rows[0]), MIDDLE_DOT);
      GridRowsLinks(rows[1..]);
      RowLinksNext(Join(TextCells(rows[0]), MIDDLE_DOT), CellContents(rows[0]), GridRows(rows[1..]),
                   TableContents(rows[1..]));
    }
  }

  lemma {:induction false} RecordLinks(
    row: seq<Cell>, places: seq<Layout.Rect>, headers: seq<Cell>, headerPlaces: seq<Layout.Rect>, from: nat)
    requires |row| == |places| && |headers| == |headerPlaces| && CellsSound(row) && Ascending(places, from)
    ensures var title, fields := RecordTitle(row, places), RecordFields(row, places, headers, headerPlaces);
            PartsLinkTo([title] + fields, ContentLinks(CellContents(row), false)) && (from > 0 ==> title == [])
  {
    hide LinksTo, SoundMarkup, PartsLinkTo, FieldName, ClassicBold, TextTokens, Links, ContentLinks;
    NothingLinks();
    if row == [] {
      NoContentLinks();
      assert [RecordTitle(row, places)] + [] == [[]];
    } else {
      var c, column := row[0].content, places[0].column;
      var later := RecordFields(row[1..], places[1..], headers, headerPlaces);
      var name := FieldName(headers, headerPlaces, column);
      assert row[0] in row;
      RecordLinks(row[1..], places[1..], headers, headerPlaces, places[0].End());
      assert RecordTitle(row[1..], places[1..]) == [];
      WithoutTitle(later, ContentLinks(CellContents(row[1..]), false));
      if column == 0 {
        var title := RecordTitle(row, places);
        assert [] + later == later;
        TitleLinks(c);
        PartLinksNext(true, title, c, later, CellContents(row[1..]));
      } else {
        var parts := (if c.text == [] then [] else [TextTokens(name + ": ") + c.classic]) + later;
        LinksToContent(c, false);
        LeadLinks(name + ": ", c.classic, Links(c.classic));
        PartLinksNext(c.text != [], TextTokens(name + ": ") + c.classic, c, later, CellContents(row[1..]));
        WithTitle(parts, ContentLinks(CellContents(row), false));
      }
    }
  }

  lemma NothingLinks()
    ensures PartsLinkTo([[]], [])
  {
    LinksToNothing();
    OnePartLinks([], []);
  }

  lemma WithoutTitle(fields: seq<seq<Token>>, targets: seq<Target>)
    requires PartsLinkTo([[]] + fields, targets)
    ensures PartsLinkTo(fields, targets)
  {
    hide LinksTo, Links;
    NoLinksInNothing();
    assert ([[]] + fields)[1..] == fields && [] + PartsLinks(fields) == PartsLinks(fields);
    assert forall p | p in fields :: p in [[]] + fields;
  }

  lemma WithTitle(fields: seq<seq<Token>>, targets: seq<Target>)
    requires PartsLinkTo(fields, targets)
    ensures PartsLinkTo([[]] + fields, targets)
  {
    hide PartsLinkTo;
    NothingLinks();
    PartsLinkToBoth([[]], [], fields, targets);
    assert [] + targets == targets;
  }

  lemma TitleLinks(c: Inline)
    requires Sound(c)
    ensures LinksTo(if c.classic == [] then [] else ClassicBold(c), Links(c.classic))
  {
    hide SoundMarkup, Wrap;
    LinksToNothing();
    BoldLinks(c);
  }

  lemma {:induction false} RecordRowsLinks(
    rows: seq<seq<Cell>>, places: seq<seq<Layout.Rect>>, headers: seq<Cell>, headerPlaces: seq<Layout.Rect>)
    requires |rows| == |places| && |headers| == |headerPlaces|
    requires forall i | 0 <= i < |rows| :: |rows[i]| == |places[i]|
    requires RowsSound(rows) && forall p | p in places :: Ascending(p, 0)
    ensures PartsLinkTo(RecordRows(rows, places, headers, headerPlaces), ContentLinks(TableContents(rows), false))
  {
    hide LinksTo, Sound, Join, RecordTitle, RecordFields, Ascending, CellContents, ContentLinks, Links, PartsLinkTo;
    if rows == [] {
      NoPartsLink();
      NoContentLinks();
    } else {
      assert CellsSound(rows[0]) && places[0] in places;
      var title, fields := RecordTitle(rows[0], places[0]), RecordFields(rows[0], places[0], headers, headerPlaces);
      RecordLinks(rows[0], places[0], headers, headerPlaces, 0);
      JoinedRecord(title, fields, ContentLinks(CellContents(rows[0]), false));
      RecordRowsLinks(rows[1..], places[1..], headers, headerPlaces);
      RowLinksNext(Join(NonEmpty([title, Join(fields, MIDDLE_DOT)]), "\n"), CellContents(rows[0]),
                   RecordRows(rows[1..], places[1..], headers, headerPlaces), TableContents(rows[1..]));
    }
  }

  lemma JoinedRecord(title: seq<Token>, fields: seq<seq<Token>>, targets: seq<Target>)
    requires PartsLinkTo([title] + fields, targets)
    ensures LinksTo(Join(NonEmpty([title, Join(fields, MIDDLE_DOT)]), "\n"), targets)
  {
    hide LinksTo, Join, NonEmpty, Links;
    var parts, joined := [title] + fields, Join(fields, MIDDLE_DOT);
    assert parts[0] == title && parts[1..] == fields && parts[0] in parts && forall p | p in fields :: p in parts;
    JoinLinks(fields, MIDDLE_DOT);
    OnePartLinks(title, Links(title));
    OnePartLinks(joined, PartsLinks(fields));
    PartsLinkToBoth([title], Links(title), [joined], PartsLinks(fields));
    assert [title] + [joined] == [title, joined];
    NonEmptyLinks([title, joined]);
    JoinLinks(NonEmpty([title, joined]), "\n");
  }

  // ---- The classic form -------------------------------------------------------------------------

  lemma RowsLinks(table: TableModel)
    requires RowsSound(table.rows)
    ensures LinksTo(ClassicTable(table.(caption := None)), ContentLinks(ClassicRows(table), false))
  {
    hide LinksTo, Sound, Links, ContentLinks, PartsLinks;
    var rows := ClassicTable(table.(caption := None));
    if table.kind == KeyValue {
      KeyValueRowsLinks(table.rows);
      JoinLinks(KeyValueRows(table.rows), "\n");
      assert [] + Join(KeyValueRows(table.rows), "\n") == Join(KeyValueRows(table.rows), "\n");
    } else if ShownAsRecords(table) {
      var places := Layout.Place(TableSpans(table.rows));
      PlacedRowsAscend(TableSpans(table.rows), [], 0);
      var records := RecordRows(table.rows[1..], places[1..], table.rows[0], places[0]);
      RecordRowsLinks(table.rows[1..], places[1..], table.rows[0], places[0]);
      JoinLinks(records, "\n\n");
      assert [] + Join(records, "\n\n") == Join(records, "\n\n");
    } else {
      GridRowsLinks(table.rows);
      JoinLinks(GridRows(table.rows), "\n");
      assert [] + Join(GridRows(table.rows), "\n") == Join(GridRows(table.rows), "\n");
    }
  }

  lemma CaptionLinks(caption: Option<Inline>)
    requires caption.Some? ==> Sound(caption.value)
    ensures LinksTo(ClassicCaption(caption), ContentLinks(CaptionContents(caption), false))
  {
    hide SoundMarkup, Wrap, TextTokens;
    LinksToNothing();
    if caption.Some? {
      OneContentLinks(caption.value, false);
      BoldLinks(caption.value);
      LinksToText("\n");
      LinksToBoth(ClassicBold(caption.value), Links(caption.value.classic), TextTokens("\n"), []);
      assert Links(caption.value.classic) + [] == Links(caption.value.classic);
    }
  }

  lemma SameAsThemselves(targets: seq<Target>)
    ensures SameLinks(targets, targets)
  {
  }

  lemma ClassicBlockLinks(b: Block)
    requires BlockSound(b)
    ensures var ts, targets := ClassicBlock(b), ContentLinks(ClassicContents(b), false);
            && LinksTo(ts, Links(ts)) && SameLinks(Links(ts), targets)
            && (!b.QuoteBlock? ==> Links(ts) == targets)
  {
    hide SoundMarkup, LinksTo, Links, ContentLinks, SameLinks;
    SameAsThemselves(ContentLinks(ClassicContents(b), false));
    if b.QuoteBlock? {
      QuotedLinks(b.content);
      OneContentLinks(b.content, false);
    } else {
      PlainBlockLinks(b);
      ReadsItsLinks(ClassicBlock(b), ContentLinks(ClassicContents(b), false));
    }
  }

  lemma ReadsItsLinks(ts: seq<Token>, targets: seq<Target>)
    requires LinksTo(ts, targets)
    ensures Links(ts) == targets
  {
  }

  lemma PlainBlockLinks(b: Block)
    requires BlockSound(b) && !b.QuoteBlock?
    ensures LinksTo(ClassicBlock(b), ContentLinks(ClassicContents(b), false))
  {
    hide ClassicTable, ClassicCaption, ClassicRows, Join, Wrap, SoundMarkup, TextTokens, LinksTo, Links, ContentLinks,
         PartsLinks;
    NoContentLinks();
    match b
    case TableBlock(table) =>
      var caption := CaptionContents(table.caption);
      RowsLinks(table);
      CaptionLinks(table.caption);
      CaptionThenRows(table);
      LinksToBoth(ClassicCaption(table.caption), ContentLinks(caption, false), ClassicTable(table.(caption := None)),
                  ContentLinks(ClassicRows(table), false));
      ContentLinksConcat(caption, ClassicRows(table), false);
    case ListBlock(ordered, start, items) =>
      ItemsLinks(ordered, start, items);
      JoinLinks(ClassicItems(ordered, start, items), "\n");
    case PreBlock(text) =>
      LinksToText(text);
      LinksToWrapped(HtmlTokens.Pre, [], TextTokens(text), []);
    case DividerBlock => LinksToText(seq(8, _ => '\U{2500}'));
    case HeadingBlock(_, content) =>
      BoldLinks(content);
      OneContentLinks(content, false);
    case ParagraphBlock(content) =>
      LinksToContent(content, false);
      OneContentLinks(content, false);
    case FooterBlock(content) =>
      LinksToContent(content, false);
      OneContentLinks(content, false);
  }

  lemma SameLinksBoth(a: seq<Target>, x: seq<Target>, b: seq<Target>, y: seq<Target>)
    requires SameLinks(a, x) && SameLinks(b, y)
    ensures SameLinks(a + b, x + y)
  {
    hide Quotes;
  }

  lemma {:induction false} ClassicBlocksLinks(blocks: seq<Block>)
    requires BlocksSound(blocks)
    ensures var parts, targets := ClassicBlocks(blocks), ContentLinks(AllClassicContents(blocks), false);
            && (forall p | p in parts :: LinksTo(p, Links(p))) && SameLinks(PartsLinks(parts), targets)
            && ((forall b | b in blocks :: !b.QuoteBlock?) ==> PartsLinks(parts) == targets)
  {
    hide ClassicBlock, ClassicContents, BlockSound, LinksTo, Links, ContentLinks, SameLinks;
    NoContentLinks();
    if blocks == [] {
      SameAsThemselves([]);
    } else {
      var b, parts := blocks[0], ClassicBlocks(blocks[1..]);
      var own, others := ClassicContents(b), AllClassicContents(blocks[1..]);
      assert BlockSound(b);
      ClassicBlockLinks(b);
      ClassicBlocksLinks(blocks[1..]);
      ContentLinksConcat(own, others, false);
      SameLinksBoth(Links(ClassicBlock(b)), ContentLinks(own, false), PartsLinks(parts), ContentLinks(others, false));
      assert ([ClassicBlock(b)] + parts)[1..] == parts;
      assert forall c | c in blocks[1..] :: c in blocks;
    }
  }

  /**
   * For all sound blocks: the links of the classic form are those of the
   * contents it writes as markup, in order, apart from quote marks inside them.
   */
  lemma RenderClassicLinks(blocks: seq<Block>)
    requires BlocksSound(blocks)
    ensures var links, targets := Links(RenderClassic(blocks)), ContentLinks(AllClassicContents(blocks), false);
            SameLinks(links, targets) && ((forall b | b in blocks :: !b.QuoteBlock?) ==> links == targets)
  {
    hide ClassicBlocks, AllClassicContents, Join, NonEmpty, LinksTo, Links, ContentLinks, PartsLinks, SameLinks, Alike,
         BlockSound;
    var parts := ClassicBlocks(blocks);
    var joined := Join(NonEmpty(parts), "\n\n");
    ClassicBlocksLinks(blocks);
    NonEmptyLinks(parts);
    JoinLinks(NonEmpty(parts), "\n\n");
    ReadsItsLinks(joined, PartsLinks(parts));
    TrimAlike(joined);
    AlikeLinks(joined, Trim(joined));
  }
}
