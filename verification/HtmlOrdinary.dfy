/**
 * Ordinary trees, with no element named `constructor`, never leave the closed
 * tag set, whatever limits cut them short.
 */
module HtmlOrdinary {
  import opened HtmlTokens
  import opened HtmlNormalize
  import opened HtmlLinks
  import opened HtmlDom
  import opened HtmlInline
  import opened HtmlBlocks
  import opened HtmlBlockLaws
  import opened HtmlRender
  import opened HtmlRenderLaws
  import opened HtmlRawTag
  import opened HtmlClosedTags
  import opened HtmlOrigins
  import Layout = TableLayout

  predicate Ordinary(nodes: seq<Node>) {
    nodes != [] ==> OrdinaryNode(nodes[0]) && Ordinary(nodes[1..])
  }

  predicate OrdinaryNode(node: Node) {
    node.Element? ==> !IsConstructor(node.name) && Ordinary(node.children)
  }

  // ---- Inline content -----------------------------------------------------------------------------

  lemma {:induction false} ParseInlineOrdinary(
    nodes: seq<Node>, ctx: Context, depth: nat, trim: bool, linkify: bool, readers: Readers)
    requires Ordinary(nodes)
    ensures !HasNative(ParseInline(nodes, ctx, depth, trim, linkify, readers).0)
    decreases nodes, 1
  {
    hide Sound, ExpandNodes, LinkifyRuns, NormalizeText, NormalizeClassic, NormalizeRich, Alike, Ordinary;
    var parts := ExpandNodes(nodes, ctx, depth, linkify, readers).0;
    var joined := if linkify then LinkifyRuns(parts, [], readers) else parts;
    ExpandNodesOrdinary(nodes, ctx, depth, linkify, readers);
    ExpandNodesSound(nodes, ctx, depth, linkify, readers);
    LinkifiedNative(parts, [], readers);
    JoinedNative(joined);
    NormalizeRichAlike(JoinRich(joined), trim);
    AlikeClosed(JoinRich(joined), NormalizeRich(JoinRich(joined), trim));
    TextIsClosed([]);
  }

  lemma {:induction false} ExpandNodesOrdinary(
    nodes: seq<Node>, ctx: Context, depth: nat, linkify: bool, readers: Readers)
    requires Ordinary(nodes)
    ensures !SomeNative(ExpandNodes(nodes, ctx, depth, linkify, readers).0)
    decreases nodes, 0
  {
    hide HasNative;
    if nodes != [] {
      var (first, c) := ExpandInlineNode(nodes[0], ctx, depth, linkify, readers);
      ExpandInlineNodeOrdinary(nodes[0], ctx, depth, linkify, readers);
      ExpandNodesOrdinary(nodes[1..], c, depth, linkify, readers);
      SomeNativeConcat(first, ExpandNodes(nodes[1..], c, depth, linkify, readers).0);
    }
  }

  lemma {:induction false} ExpandInlineNodeOrdinary(
    node: Node, ctx: Context, depth: nat, linkify: bool, readers: Readers)
    requires OrdinaryNode(node)
    ensures !SomeNative(ExpandInlineNode(node, ctx, depth, linkify, readers).0)
    decreases node, 2
  {
    hide HasNative, ParseInlineNode;
    if node.Element? && IsTransparent(node.name) {
      var (entered, c) := Enter(ctx, depth);
      if entered {
        ExpandNodesOrdinary(node.children, c, depth + 1, linkify, readers);
      }
    } else {
      ParseInlineNodeOrdinary(node, ctx, depth, linkify, readers);
      OneNative(ParseInlineNode(node, ctx, depth, linkify, readers).0);
    }
  }

  lemma {:induction false} ParseInlineNodeOrdinary(
    node: Node, ctx: Context, depth: nat, linkify: bool, readers: Readers)
    requires OrdinaryNode(node)
    ensures !HasNative(ParseInlineNode(node, ctx, depth, linkify, readers).0)
    decreases node, 1
  {
    hide HasNative, ParseElement;
    var (entered, c) := Enter(ctx, depth);
    TextNotNative(if node.Text? then CleanText(node.data) else "");
    TextNotNative("");
    if entered && node.Element? {
      ParseElementOrdinary(node, c, depth, linkify, readers);
    }
  }

  lemma {:induction false} ParseElementOrdinary(node: Node, ctx: Context, depth: nat, linkify: bool, readers: Readers)
    requires node.Element? && OrdinaryNode(node)
    ensures !HasNative(ParseElement(node, ctx, depth, linkify, readers).0)
    decreases node, 0
  {
    hide RenderElement, ParseInline, CollectText, HasNative;
    var name := node.name;
    TextNotNative("");
    BreakNotNative();
    if name.Table? {
      TextNotNative(CollectText([node], ctx, depth + 1, false).0);
    } else if !IsDropped(name) && !name.Br? {
      var childLinkify := LinkifiesChildren(name, linkify);
      ParseInlineOrdinary(node.children, ctx, depth + 1, false, childLinkify, readers);
      ElementNative(node, ParseInline(node.children, ctx, depth + 1, false, childLinkify, readers).0, readers);
    }
  }

  // ---- The document ----------------------------------------------------------------------------------------

  lemma {:induction false} OrdinaryBelow(node: Node, root: seq<Node>)
    requires Ordinary(root) && LiesBelow(node, root)
    ensures OrdinaryNode(node)
  {
    if node != root[0] {
      if root[0].Element? && LiesBelow(node, root[0].children) {
        OrdinaryBelow(node, root[0].children);
      } else {
        OrdinaryBelow(node, root[1..]);
      }
    }
  }

  lemma {:induction false} OrdinaryNodes(nodes: seq<Node>)
    requires forall n | n in nodes :: OrdinaryNode(n)
    ensures Ordinary(nodes)
  {
    hide OrdinaryNode;
    if nodes != [] {
      OrdinaryNodes(nodes[1..]);
    }
  }

  lemma OriginIsOrdinary(c: Inline, root: seq<Node>, readers: Readers)
    requires Ordinary(root) && Origin(c, root, readers)
    ensures !HasNative(c)
  {
    hide ParseInline, LiesBelow, OrdinaryNode, Ordinary, HasNative;
    TextNotNative("");
    if c != EmptyInline() {
      var nodes: seq<Node>, ctx: Context, depth: nat :|
        AllBelow(nodes, root) && c == ParseInline(nodes, ctx, depth, true, true, readers).0;
      forall n | n in nodes ensures OrdinaryNode(n) { OrdinaryBelow(n, root); }
      OrdinaryNodes(nodes);
      ParseInlineOrdinary(nodes, ctx, depth, true, true, readers);
    }
  }

  predicate OrdinaryBlock(b: Block) {
    !SomeNative(Contents(b))
  }

  predicate OrdinaryBlocks(blocks: seq<Block>) {
    forall b | b in blocks :: OrdinaryBlock(b)
  }

  lemma {:induction false} NoneNative(items: seq<Inline>)
    requires forall c | c in items :: !HasNative(c)
    ensures !SomeNative(items)
  {
    hide HasNative;
    if items != [] {
      NoneNative(items[1..]);
    }
  }

  lemma {:induction false} OrdinaryClassic(blocks: seq<Block>)
    requires OrdinaryBlocks(blocks)
    ensures !SomeNative(AllClassicContents(blocks))
  {
    hide SomeNative, ClassicContents, Contents;
    if blocks == [] {
      NoNative();
    } else {
      assert OrdinaryBlock(blocks[0]);
      ClassicWithinContents(blocks[0]);
      OrdinaryClassic(blocks[1..]);
      SomeNativeConcat(ClassicContents(blocks[0]), AllClassicContents(blocks[1..]));
    }
  }

  lemma {:induction false} OrdinaryRich(blocks: seq<Block>)
    requires OrdinaryBlocks(blocks) && BlocksSound(blocks)
    ensures ClosedTags(RenderRich(blocks))
  {
    hide BlockSound, RichBlock, Contents, SomeNative;
    if blocks == [] {
      TextIsClosed([]);
    } else {
      assert OrdinaryBlock(blocks[0]) && BlockSound(blocks[0]);
      RichBlockNative(blocks[0]);
      OrdinaryRich(blocks[1..]);
      ClosedConcat(RichBlock(blocks[0]), RenderRich(blocks[1..]));
    }
  }

  lemma DocumentIsOrdinary(children: seq<Node>, sourceTruncated: bool, domTruncated: bool, readers: Readers)
    requires Ordinary(children)
    ensures var (parsed, ctx) := ParseBlocks(children, FreshContext(sourceTruncated, domTruncated), 0, readers);
            OrdinaryBlocks(DocumentBlocks(parsed, ctx, OMITTED_NOTICE))
  {
    hide ParseBlocks, DocumentBlocks, Contents, Ordinary, Origin, HasNative, SomeNative;
    var (parsed, ctx) := ParseBlocks(children, FreshContext(sourceTruncated, domTruncated), 0, readers);
    DocumentFrom(children, sourceTruncated, domTruncated, OMITTED_NOTICE, readers);
    TextNotNative(OMITTED_NOTICE);
    forall b | b in DocumentBlocks(parsed, ctx, OMITTED_NOTICE) ensures OrdinaryBlock(b) {
      forall c | c in Contents(b) && c != PlainText(OMITTED_NOTICE) ensures !HasNative(c) {
        OriginIsOrdinary(c, children, readers);
      }
      NoneNative(Contents(b));
    }
  }

  /** For every tree without an element named `constructor`, cut short or not: both forms stay in the closed tag set. */
  lemma OrdinaryDocumentsAreClosed(children: seq<Node>, sourceTruncated: bool, domTruncated: bool, readers: Readers)
    requires Ordinary(children)
    ensures var r := RenderDocument(children, sourceTruncated, domTruncated, readers);
            ClosedTags(r.classic) && (r.rich.Some? ==> ClosedTags(r.rich.value))
  {
    hide RenderClassic, RenderRich, StatsOf, HasLinks, ClosedTags, SomeNative, AllClassicContents, BlocksSound,
         OrdinaryBlocks,
         ParseBlocks, DocumentBlocks, RichIneligibility, Ordinary;
    var (parsed, ctx) := ParseBlocks(children, FreshContext(sourceTruncated, domTruncated), 0, readers);
    var blocks := DocumentBlocks(parsed, ctx, OMITTED_NOTICE);
    UntruncatedIsWhole(children, sourceTruncated, domTruncated, readers);
    NoticeIsSound(parsed, ctx, OMITTED_NOTICE);
    DocumentIsOrdinary(children, sourceTruncated, domTruncated, readers);
    OrdinaryClassic(blocks);
    OrdinaryRich(blocks);
    ClassicClosedExactlyWhen(blocks);
  }
}
