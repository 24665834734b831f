/**
 * Where the links of a document point. For a whole tree they are exactly those
 * read off it, in order; of a tree cut short, each is still the link of one of
 * its anchors, or of a bare URL it shows.
 */
module HtmlDestinations {
  import opened HtmlTokens
  import opened HtmlNormalize
  import opened HtmlLinks
  import opened HtmlDom
  import opened HtmlInline
  import opened HtmlBlocks
  import opened HtmlBlockLaws
  import opened HtmlRender
  import opened HtmlRenderLaws
  import opened HtmlInk
  import opened HtmlMarks
  import opened HtmlRuns
  import opened HtmlShown
  import opened HtmlClassicInk
  import opened HtmlClosedTags
  import opened HtmlCutShort
  import opened HtmlTargets
  import opened HtmlOrigins
  import opened HtmlBlockLinks

  // ---- Any content, cut short or not ----------------------------------------------------------

  /** A link of this element: to the safe form of its href, showing no character its content does not hold. */
  ghost predicate LinkOf(a: Node, t: Target, readers: Readers) {
    && a.Element? && a.name.A? && a.attrs.href.Some?
    && readers.safeHref(a.attrs.href.value) == Some(t.href)
    && DrawnFrom(t.shown, MarkedText(a.children, readers))
  }

  /** A link made for the bare URL it shows. */
  ghost predicate BareLink(t: Target, readers: Readers) {
    exists url: string :: readers.synthesizedHref(url) == Some(t.href) && NonSpace(url) == t.shown
  }

  /** A link of an element <a> below `root`, or in the rich form of a bare URL. */
  ghost predicate Destined(t: Target, root: seq<Node>, rich: bool, readers: Readers) {
    (rich && BareLink(t, readers)) || exists a: Node :: LiesBelow(a, root) && LinkOf(a, t, readers)
  }

  ghost predicate AllDestined(targets: seq<Target>, root: seq<Node>, rich: bool, readers: Readers) {
    forall t | t in targets :: Destined(t, root, rich, readers)
  }

  ghost predicate PartsDestined(parts: seq<Inline>, root: seq<Node>, rich: bool, readers: Readers) {
    forall p | p in parts :: AllDestined(Links(MarkupOf(p, rich)), root, rich, readers)
  }

  lemma {:induction false} BareTargetsDestined(
    text: string, spans: seq<Span>, root: seq<Node>, readers: Readers)
    requires forall s | s in spans :: s.start < s.end <= |text|
    ensures AllDestined(BareTargets(text, spans, readers), root, true, readers)
  {
    if spans != [] {
      assert spans[0] in spans;
      BareTargetsDestined(text, spans[1..], root, readers);
      var candidate := LinkCandidate(text[spans[0].start..spans[0].end]);
      if candidate.Some? && readers.synthesizedHref(candidate.value).Some? {
        var t := Target(readers.synthesizedHref(candidate.value).value, NonSpace(candidate.value));
        assert readers.synthesizedHref(candidate.value) == Some(t.href);
        assert BareLink(t, readers);
      }
    }
  }

  lemma LinkedTextDestined(text: string, root: seq<Node>, rich: bool, readers: Readers)
    ensures AllDestined(Links(MarkupOf(LinkedText(text, readers), rich)), root, rich, readers)
  {
    hide Links, BareTargets, Destined, LinkedText;
    LinkedTextTargets(text, rich, readers);
    MatchesInOrder(text, 0);
    SpansInText(Matches(text, 0), 0, |text|);
    if rich {
      BareTargetsDestined(text, Matches(text, 0), root, readers);
    }
  }

  lemma {:induction false} LinkifyRunsDestined(
    parts: seq<Inline>, run: seq<Inline>, root: seq<Node>, rich: bool, readers: Readers)
    requires PartsDestined(parts, root, rich, readers)
    ensures PartsDestined(LinkifyRuns(parts, run, readers), root, rich, readers)
    decreases |parts|
  {
    hide AllDestined, Links, MarkupOf, LinkedText, JoinText;
    LinkedTextDestined(JoinText(run), root, rich, readers);
    if parts != [] {
      LinkifyRunsDestined(parts[1..], if parts[0].plain then run + [parts[0]] else [], root, rich, readers);
    }
  }

  lemma {:induction false} JoinedDestined(parts: seq<Inline>, root: seq<Node>, rich: bool, readers: Readers)
    requires AllSound(parts) && PartsDestined(parts, root, rich, readers)
    ensures AllDestined(Links(JoinedMarkup(parts, rich)), root, rich, readers)
  {
    hide SoundMarkup, Sound, Links, MarkupOf, Destined;
    NoLinksInNothing();
    if parts != [] {
      assert Sound(parts[0]) && AllDestined(Links(MarkupOf(parts[0], rich)), root, rich, readers);
      SoundPart(parts[0], rich);
      JoinedDestined(parts[1..], root, rich, readers);
      LinksOfBoth(MarkupOf(parts[0], rich), JoinedMarkup(parts[1..], rich));
    }
  }

  /**
   * For every budget and every list of nodes below `root`: each link of either
   * markup is one of an anchor below `root`, or in the rich markup of a bare URL.
   */
  lemma {:induction false} ParseInlineDestined(
    nodes: seq<Node>, ctx: Context, depth: nat, trim: bool, linkify: bool, root: seq<Node>, rich: bool,
    readers: Readers)
    requires AllBelow(nodes, root)
    ensures AllDestined(Links(MarkupOf(ParseInline(nodes, ctx, depth, trim, linkify, readers).0, rich)), root, rich,
                        readers)
    decreases nodes, 1
  {
    hide Sound, ExpandNodes, LinkifyRuns, Combine, Links, MarkupOf, Destined, PartsDestined, LiesBelow;
    var parts := ExpandNodes(nodes, ctx, depth, linkify, readers).0;
    ExpandNodesDestined(nodes, ctx, depth, linkify, root, rich, readers);
    ExpandNodesSound(nodes, ctx, depth, linkify, readers);
    LinkifyRunsDestined(parts, [], root, rich, readers);
    LinkifyRunsSound(parts, [], readers);
    var joined := if linkify then LinkifyRuns(parts, [], readers) else parts;
    JoinedDestined(joined, root, rich, readers);
    CombinedLinks(joined, trim, rich);
  }

  lemma {:induction false} ExpandNodesDestined(
    nodes: seq<Node>, ctx: Context, depth: nat, linkify: bool, root: seq<Node>, rich: bool, readers: Readers)
    requires AllBelow(nodes, root)
    ensures PartsDestined(ExpandNodes(nodes, ctx, depth, linkify, readers).0, root, rich, readers)
    decreases nodes, 0
  {
    hide ExpandInlineNode, AllDestined, LiesBelow;
    if nodes != [] {
      ExpandInlineNodeDestined(nodes[0], ctx, depth, linkify, root, rich, readers);
      ExpandNodesDestined(nodes[1..], ExpandInlineNode(nodes[0], ctx, depth, linkify, readers).1, depth, linkify, root,
                          rich, readers);
    }
  }

  lemma {:induction false} ExpandInlineNodeDestined(
    node: Node, ctx: Context, depth: nat, linkify: bool, root: seq<Node>, rich: bool, readers: Readers)
    requires LiesBelow(node, root)
    ensures PartsDestined(ExpandInlineNode(node, ctx, depth, linkify, readers).0, root, rich, readers)
    decreases node, 2
  {
    hide ParseInlineNode, AllDestined, LiesBelow;
    if node.Element? && IsTransparent(node.name) {
      var (entered, c) := Enter(ctx, depth);
      ChildrenBelow(node, root);
      if entered {
        ExpandNodesDestined(node.children, c, depth + 1, linkify, root, rich, readers);
      }
    } else {
      ParseInlineNodeDestined(node, ctx, depth, linkify, root, rich, readers);
    }
  }

  lemma {:induction false} ParseInlineNodeDestined(
    node: Node, ctx: Context, depth: nat, linkify: bool, root: seq<Node>, rich: bool, readers: Readers)
    requires LiesBelow(node, root)
    ensures AllDestined(Links(MarkupOf(ParseInlineNode(node, ctx, depth, linkify, readers).0, rich)), root, rich,
                        readers)
    decreases node, 1
  {
    hide ParseElement, CleanText, Links, LiesBelow;
    var (entered, c) := Enter(ctx, depth);
    PlainTextLinks(if node.Text? then CleanText(node.data) else "");
    PlainTextLinks("");
    if entered && node.Element? {
      ParseElementDestined(node, c, depth, linkify, root, rich, readers);
    }
  }

  lemma {:induction false} ParseElementDestined(
    node: Node, ctx: Context, depth: nat, linkify: bool, root: seq<Node>, rich: bool, readers: Readers)
    requires node.Element? && LiesBelow(node, root)
    ensures AllDestined(Links(MarkupOf(ParseElement(node, ctx, depth, linkify, readers).0, rich)), root, rich, readers)
    decreases node, 0
  {
    hide ParseInline, CollectText, RenderElement, Links, Sound, Destined, LinkOf, MarkedText, DrawnFrom, LiesBelow;
    var name := node.name;
    PlainTextLinks("");
    BreakHasNoLinks();
    if name.Table? {
      PlainTextLinks(CollectText([node], ctx, depth + 1, false).0);
    } else if !IsDropped(name) && !name.Br? {
      var below := LinkifiesChildren(name, linkify);
      var child := ParseInline(node.children, ctx, depth + 1, false, below, readers).0;
      ChildrenBelow(node, root);
      ParseInlineDestined(node.children, ctx, depth + 1, false, below, root, rich, readers);
      ParseInlineSound(node.children, ctx, depth + 1, false, below, readers);
      ParseInlineDrawn(node.children, ctx, depth + 1, false, below, readers);
      TargetsOfRendered(node, child, rich, readers);
      if IsAnchor(node, readers) {
        OwnLink(node, Target(readers.safeHref(node.attrs.href.value).value, NonSpace(child.text)), root, rich, readers);
      }
    }
  }

  lemma OwnLink(a: Node, t: Target, root: seq<Node>, rich: bool, readers: Readers)
    requires LiesBelow(a, root) && a.Element? && IsAnchor(a, readers)
             && t.href == readers.safeHref(a.attrs.href.value).value
    requires DrawnFrom(t.shown, MarkedText(a.children, readers))
    ensures Destined(t, root, rich, readers)
  {
    hide DrawnFrom, MarkedText;
    assert LinkOf(a, t, readers);
  }

  // ---- Any document ---------------------------------------------------------------------------

  lemma OriginDestined(c: Inline, root: seq<Node>, rich: bool, readers: Readers)
    requires Origin(c, root, readers)
    ensures AllDestined(Links(MarkupOf(c, rich)), root, rich, readers)
  {
    hide ParseInline, LiesBelow, Links, Destined;
    PlainTextLinks("");
    if c != EmptyInline() {
      var nodes: seq<Node>, ctx: Context, depth: nat :|
        AllBelow(nodes, root) && c == ParseInline(nodes, ctx, depth, true, true, readers).0;
      ParseInlineDestined(nodes, ctx, depth, true, true, root, rich, readers);
    }
  }

  lemma {:induction false} ContentsDestined(items: seq<Inline>, root: seq<Node>, rich: bool, readers: Readers)
    requires PartsDestined(items, root, rich, readers)
    ensures AllDestined(ContentLinks(items, rich), root, rich, readers)
  {
    hide Links, MarkupOf, Destined;
    if items != [] {
      assert AllDestined(Links(MarkupOf(items[0], rich)), root, rich, readers);
      ContentsDestined(items[1..], root, rich, readers);
    }
  }

  lemma {:induction false} InAllContents(blocks: seq<Block>, c: Inline)
    ensures c in AllContents(blocks) ==> exists b :: b in blocks && c in Contents(b)
  {
    hide Contents;
    if blocks != [] {
      InAllContents(blocks[1..], c);
    }
  }

  // The contents written by the classic form are contents of the blocks, or empty.
  lemma {:induction false} WithinPairs(row: seq<Cell>, index: nat, c: Inline)
    requires c in PairContents(row, index)
    ensures c == EmptyInline() || c in CellContents(row)
    decreases |row| - index
  {
    if index < |row| {
      var key, value := row[index].content, CellAt(row, index + 1).content;
      assert CellContents(row)[index] == key;
      assert index + 1 < |row| ==> CellContents(row)[index + 1] == value;
      if c in PairContents(row, index + 2) {
        WithinPairs(row, index + 2, c);
      }
    }
  }

  lemma {:induction false} WithinKeyValueRows(rows: seq<seq<Cell>>, c: Inline)
    requires c in KeyValueContents(rows)
    ensures c == EmptyInline() || c in TableContents(rows)
  {
    hide PairContents, CellContents;
    if c in PairContents(rows[0], 0) {
      WithinPairs(rows[0], 0, c);
    } else {
      WithinKeyValueRows(rows[1..], c);
    }
  }

  lemma {:induction false} WithinContents(blocks: seq<Block>, c: Inline)
    requires c in AllClassicContents(blocks)
    ensures c == EmptyInline() || c in AllContents(blocks)
  {
    hide KeyValueContents, TableContents;
    var b := blocks[0];
    if c !in ClassicContents(b) {
      WithinContents(blocks[1..], c);
    } else if b.TableBlock? {
      if c in KeyValueContents(b.table.rows) {
        WithinKeyValueRows(b.table.rows, c);
      }
      if ShownAsRecords(b.table) {
        RowsBehindFirst(b.table.rows);
      }
    }
  }

  lemma RowsBehindFirst(rows: seq<seq<Cell>>)
    requires rows != []
    ensures forall c | c in TableContents(rows[1..]) :: c in TableContents(rows)
  {
  }

  lemma DocumentContentsDestined(
    children: seq<Node>, sourceTruncated: bool, domTruncated: bool, rich: bool, readers: Readers)
    ensures var (parsed, ctx) := ParseBlocks(children, FreshContext(sourceTruncated, domTruncated), 0, readers);
            var blocks := DocumentBlocks(parsed, ctx, OMITTED_NOTICE);
            PartsDestined(AllContents(blocks), children, rich, readers)
            && PartsDestined(AllClassicContents(blocks), children, rich, readers)
  {
    hide ParseBlocks, DocumentBlocks, Contents, Origin, AllDestined, AllContents, AllClassicContents, MarkupOf, Links;
    var (parsed, ctx) := ParseBlocks(children, FreshContext(sourceTruncated, domTruncated), 0, readers);
    var blocks := DocumentBlocks(parsed, ctx, OMITTED_NOTICE);
    DocumentFrom(children, sourceTruncated, domTruncated, OMITTED_NOTICE, readers);
    NoticeDestined(children, rich, readers);
    EmptyFrom(children, readers);
    OriginDestined(EmptyInline(), children, rich, readers);
    forall c | c in AllContents(blocks) ensures AllDestined(Links(MarkupOf(c, rich)), children, rich, readers) {
      InAllContents(blocks, c);
      if c != PlainText(OMITTED_NOTICE) {
        OriginDestined(c, children, rich, readers);
      }
    }
    forall c | c in AllClassicContents(blocks) ensures AllDestined(Links(MarkupOf(c, rich)), children, rich, readers) {
      WithinContents(blocks, c);
    }
  }

  lemma NoticeDestined(root: seq<Node>, rich: bool, readers: Readers)
    ensures AllDestined(Links(MarkupOf(PlainText(OMITTED_NOTICE), rich)), root, rich, readers)
  {
    hide Links, Destined;
    PlainTextLinks(OMITTED_NOTICE);
  }

  /** A link of the classic form: the link of an anchor of the tree, apart from quote marks in what it shows. */
  ghost predicate QuotedDestined(t: Target, root: seq<Node>, readers: Readers) {
    exists shown: string ::
      Quotes(t.shown, shown) && Destined(Target(t.href, shown), root, false, readers)
  }

  /**
   * For every document, however much of it was cut: each link of the classic
   * form is one of an anchor of the tree, with its safe href and some of its
   * text; each link of the rich form is one too, or shows the bare URL it was
   * made for.
   */
  lemma LinksAreDestined(children: seq<Node>, sourceTruncated: bool, domTruncated: bool, readers: Readers)
    ensures var r := RenderDocument(children, sourceTruncated, domTruncated, readers);
            && (forall t | t in Links(r.classic) :: QuotedDestined(t, children, readers))
            && (r.rich.Some? ==> AllDestined(Links(r.rich.value), children, true, readers))
  {
    hide ParseBlocks, DocumentBlocks, RenderClassic, RenderRich, StatsOf, HasLinks, AllContents, AllClassicContents,
         BlockSound, ContentLinks, Links, Destined, Quotes, PartsDestined;
    var (parsed, ctx) := ParseBlocks(children, FreshContext(sourceTruncated, domTruncated), 0, readers);
    var blocks := DocumentBlocks(parsed, ctx, OMITTED_NOTICE);
    UntruncatedIsWhole(children, sourceTruncated, domTruncated, readers);
    NoticeIsSound(parsed, ctx, OMITTED_NOTICE);
    DocumentContentsDestined(children, sourceTruncated, domTruncated, false, readers);
    DocumentContentsDestined(children, sourceTruncated, domTruncated, true, readers);
    ContentsDestined(AllContents(blocks), children, true, readers);
    ContentsDestined(AllClassicContents(blocks), children, false, readers);
    RenderRichLinks(blocks);
    ReadsItsLinks(RenderRich(blocks), ContentLinks(AllContents(blocks), true));
    RenderClassicLinks(blocks);
    var links, targets := Links(RenderClassic(blocks)), ContentLinks(AllClassicContents(blocks), false);
    forall t | t in links ensures QuotedDestined(t, children, readers) {
      var i :| 0 <= i < |links| && links[i] == t;
      assert targets[i] in targets;
      assert Target(t.href, targets[i].shown) == targets[i];
    }
  }

  // ---- Whole documents ------------------------------------------------------------------------

  // The links of the runs of a tree, in order: those of the inline content that shows anything.
  function RunsTargets(runs: seq<Run>, rich: bool, readers: Readers): seq<Target> {
    if runs == [] then []
    else
      (if runs[0].Inlined? && InlineInk(runs[0].nodes, readers, true) != [] then
         ContentTargets(runs[0].nodes, true, rich, readers)
       else []) + RunsTargets(runs[1..], rich, readers)
  }

  /** The links of a tree, in document order. */
  function TreeTargets(nodes: seq<Node>, rich: bool, readers: Readers): seq<Target> {
    RunsTargets(TreeRuns(nodes, [], readers), rich, readers)
  }

  function PiecesLinks(pieces: seq<HtmlShown.Piece>, rich: bool): seq<Target> {
    if pieces == [] then []
    else
      (if pieces[0].Content? then Links(MarkupOf(pieces[0].content, rich)) else []) + PiecesLinks(pieces[1..], rich)
  }

  lemma {:induction false} PiecesLinksConcat(a: seq<HtmlShown.Piece>, b: seq<HtmlShown.Piece>, rich: bool)
    ensures PiecesLinks(a + b, rich) == PiecesLinks(a, rich) + PiecesLinks(b, rich)
  {
    hide Links, MarkupOf;
    if a == [] {
      assert a + b == b;
    } else {
      assert (a + b)[0] == a[0] && (a + b)[1..] == a[1..] + b;
      PiecesLinksConcat(a[1..], b, rich);
      var own := if a[0].Content? then Links(MarkupOf(a[0].content, rich)) else [];
      var x, y := PiecesLinks(a[1..], rich), PiecesLinks(b, rich);
      assert own + (x + y) == own + x + y;
    }
  }

  lemma OnePieceLinks(p: HtmlShown.Piece, rich: bool)
    ensures PiecesLinks([p], rich) == if p.Content? then Links(MarkupOf(p.content, rich)) else []
  {
    assert [p][1..] == [];
    assert p.Content? ==> Links(MarkupOf(p.content, rich)) + [] == Links(MarkupOf(p.content, rich));
  }

  lemma {:induction false} FilledLinks(items: seq<Inline>, rich: bool)
    requires AllSound(items)
    ensures PiecesLinks(Filled(items), rich) == ContentLinks(items, rich)
  {
    hide SoundMarkup, Links;
    if items != [] {
      var c, rest := items[0], Filled(items[1..]);
      assert Sound(c);
      FilledLinks(items[1..], rich);
      if c.text == [] {
        NoLinksInNothing();
        assert [] + rest == rest && [] + PiecesLinks(rest, rich) == PiecesLinks(rest, rich);
      } else {
        PiecesLinksConcat([Content(c)], rest, rich);
        OnePieceLinks(Content(c), rich);
      }
    }
  }

  lemma ContentsSound(b: Block)
    requires BlockSound(b)
    ensures AllSound(Contents(b))
  {
    hide Sound;
    if b.TableBlock? {
      TableContentsSound(b.table.rows);
    }
  }

  lemma {:induction false} TableContentsSound(rows: seq<seq<Cell>>)
    requires RowsSound(rows)
    ensures AllSound(TableContents(rows))
  {
    hide Sound;
    if rows != [] {
      assert CellsSound(rows[0]);
      forall c | c in CellContents(rows[0]) ensures Sound(c) { ContentsOfRow(rows[0], c); }
      TableContentsSound(rows[1..]);
    }
  }

  lemma {:induction false} BlocksLinks(blocks: seq<Block>, rich: bool)
    requires BlocksSound(blocks)
    ensures ContentLinks(AllContents(blocks), rich) == PiecesLinks(BlocksPieces(blocks), rich)
  {
    hide BlockSound, Contents, ContentLinks, PiecesLinks, AllSound;
    NoContentLinks();
    NoPiecesLinks(rich);
    if blocks != [] {
      assert BlockSound(blocks[0]);
      BlockLinks(blocks[0], rich);
      BlocksLinks(blocks[1..], rich);
      ContentLinksConcat(Contents(blocks[0]), AllContents(blocks[1..]), rich);
      PiecesLinksConcat(BlockPieces(blocks[0]), BlocksPieces(blocks[1..]), rich);
    }
  }

  lemma NoPiecesLinks(rich: bool)
    ensures PiecesLinks([], rich) == []
  {
  }

  lemma BlockLinks(b: Block, rich: bool)
    requires BlockSound(b)
    ensures ContentLinks(Contents(b), rich) == PiecesLinks(BlockPieces(b), rich)
  {
    hide BlockSound, AllSound, Filled, PiecesLinks, ContentLinks;
    NoContentLinks();
    ContentsSound(b);
    match b
    case PreBlock(text) => OnePieceLinks(Bare(text), rich);
    case DividerBlock => OnePieceLinks(Divider, rich);
    case _ => FilledLinks(Contents(b), rich);
  }

  lemma {:induction false} RunsLinks(runs: seq<Run>, rich: bool, readers: Readers)
    ensures PiecesLinks(RunsPieces(runs, readers), rich) == RunsTargets(runs, rich, readers)
  {
    hide RunPieces, InlineInk, ContentTargets;
    if runs != [] {
      RunLinks(runs[0], rich, readers);
      RunsLinks(runs[1..], rich, readers);
      PiecesLinksConcat(RunPieces(runs[0], readers), RunsPieces(runs[1..], readers), rich);
    }
  }

  lemma RunLinks(run: Run, rich: bool, readers: Readers)
    ensures PiecesLinks(RunPieces(run, readers), rich) ==
            if run.Inlined? && InlineInk(run.nodes, readers, true) != [] then
              ContentTargets(run.nodes, true, rich, readers)
            else []
  {
    hide InlineInk, ContentTargets, Links, ParseInline;
    match run
    case Inlined(nodes) =>
      ParseInlineInk(nodes, FREE, 0, true, true, readers);
      TargetsOfInline(nodes, FREE, 0, true, true, rich, readers);
      FilledOne(InlineOf(nodes, readers));
      OnePieceLinks(Content(InlineOf(nodes, readers)), rich);
    case Verbatim(nodes) => OnePieceLinks(Bare(PreText(nodes)), rich);
    case Rule => OnePieceLinks(Divider, rich);
  }

  // Tables with labels show some cells as text only; other tables write all their cells as markup.
  predicate HasLabels(b: Block) {
    b.TableBlock? && (b.table.kind == KeyValue || ShownAsRecords(b.table))
  }

  lemma {:induction false} UnlabelledContents(blocks: seq<Block>)
    requires forall b | b in blocks :: !HasLabels(b)
    ensures AllClassicContents(blocks) == AllContents(blocks)
  {
    if blocks != [] {
      assert !HasLabels(blocks[0]);
      UnlabelledContents(blocks[1..]);
    }
  }

  /**
   * For every tree parsed without limits: the rich form has exactly the links
   * of the tree, in order, pointing where it says and showing what it says. So
   * has the classic form, without those of bare URLs and apart from quote
   * marks, if no data table is shown with labels.
   */
  lemma WholeLinks(children: seq<Node>, readers: Readers)
    requires BlocksSound(WholeDocument(children, readers))
    ensures var whole := WholeDocument(children, readers);
            && Links(RenderRich(whole)) == TreeTargets(children, true, readers)
            && ((forall b | b in whole :: !HasLabels(b)) ==>
                  SameLinks(Links(RenderClassic(whole)), TreeTargets(children, false, readers)))
            && ((forall b | b in whole :: !HasLabels(b) && !b.QuoteBlock?) ==>
                  Links(RenderClassic(whole)) == TreeTargets(children, false, readers))
  {
    hide ParseBlocks, RenderClassic, RenderRich, TreeRuns, BlocksPieces, RunsPieces, PiecesLinks, RunsTargets, Links,
         ContentLinks, AllContents, AllClassicContents, BlockSound, SameLinks, HasLabels;
    var whole := WholeDocument(children, readers);
    ParseBlocksShown(children, FREE, 0, readers);
    RenderRichLinks(whole);
    ReadsItsLinks(RenderRich(whole), ContentLinks(AllContents(whole), true));
    BlocksLinks(whole, true);
    RunsLinks(TreeRuns(children, [], readers), true, readers);
    RenderClassicLinks(whole);
    BlocksLinks(whole, false);
    RunsLinks(TreeRuns(children, [], readers), false, readers);
    if forall b | b in whole :: !HasLabels(b) {
      UnlabelledContents(whole);
    }
  }

  /** For every document that is sent whole: its rich form, if it has one, holds exactly the links of the tree. */
  lemma LinksOfDocument(children: seq<Node>, sourceTruncated: bool, domTruncated: bool, readers: Readers)
    requires RenderDocument(children, sourceTruncated, domTruncated, readers).reason != Some(InputLimit)
    ensures var r := RenderDocument(children, sourceTruncated, domTruncated, readers);
            var whole := WholeDocument(children, readers);
            && (r.rich.Some? ==> Links(r.rich.value) == TreeTargets(children, true, readers))
            && ((forall b | b in whole :: !HasLabels(b)) ==>
                  SameLinks(Links(r.classic), TreeTargets(children, false, readers)))
  {
    hide ParseBlocks, RenderClassic, RenderRich, StatsOf, HasLinks, Links, TreeTargets, SameLinks, HasLabels;
    UntruncatedIsWhole(children, sourceTruncated, domTruncated, readers);
    WholeLinks(children, readers);
  }
}
