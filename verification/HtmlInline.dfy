/**
 * Inline content: from DOM nodes to plain text and two markups at once, with
 * flags that say what the markup contains.
 */
module HtmlInline {
  import opened HtmlTokens
  import opened HtmlNormalize
  import opened HtmlLinks
  import opened HtmlDom

  datatype Inline = Inline(
    text: string, classic: seq<Token>, rich: seq<Token>,
    hasLinks: bool, maxDepth: int, containsCode: bool, containsAnchor: bool, plain: bool)

  // ---- Text -------------------------------------------------------------------

  // Escaped text without markup of its own.
  function PlainText(text: string): Inline {
    Inline(text, TextTokens(text), TextTokens(text), false, 0, false, false, true)
  }

  function EmptyInline(): Inline {
    PlainText("")
  }

  // Bare URLs become links in the rich form only.
  function LinkedText(text: string, readers: Readers): Inline {
    MatchesInOrder(text, 0);
    var spans := Matches(text, 0);
    if SomeLink(text, spans, 0, readers.synthesizedHref) then
      Inline(text, TextTokens(text), LinkFrom(text, spans, 0, readers.synthesizedHref), true, 1, false, true, false)
    else PlainText(text)
  }

  // ---- Joining parts ------------------------------------------------------------

  function JoinText(parts: seq<Inline>): string {
    if parts == [] then [] else parts[0].text + JoinText(parts[1..])
  }

  function JoinClassic(parts: seq<Inline>): seq<Token> {
    if parts == [] then [] else parts[0].classic + JoinClassic(parts[1..])
  }

  function JoinRich(parts: seq<Inline>): seq<Token> {
    if parts == [] then [] else parts[0].rich + JoinRich(parts[1..])
  }

  function DeepestPart(parts: seq<Inline>): int {
    if parts == [] then 0 else Max(parts[0].maxDepth, DeepestPart(parts[1..]))
  }

  // `(?:https?:\/\/|mailto:)\S+` somewhere in the text.
  predicate MentionsLink(text: string) {
    exists i | 0 <= i < |text| ::
      var n := SchemeLength(text[i..]); n > 0 && i + n < |text| && !IsSpace(text[i + n])
  }

  function Combine(parts: seq<Inline>, trimBoundary: bool): Inline {
    var text := NormalizeText(JoinText(parts), trimBoundary);
    Inline(
      text,
      if text == [] then [] else NormalizeClassic(JoinClassic(parts), trimBoundary),
      if text == [] then [] else NormalizeRich(JoinRich(parts), trimBoundary),
      (exists p | p in parts :: p.hasLinks) || MentionsLink(text),
      DeepestPart(parts),
      exists p | p in parts :: p.containsCode,
      exists p | p in parts :: p.containsAnchor,
      forall p | p in parts :: p.plain)
  }

  // Join each maximal run of plain parts and link the joined text once.
  function LinkifyRuns(parts: seq<Inline>, run: seq<Inline>, readers: Readers): seq<Inline>
    decreases |parts|
  {
    if parts == [] then (if run == [] then [] else [LinkedText(JoinText(run), readers)])
    else if parts[0].plain then LinkifyRuns(parts[1..], run + [parts[0]], readers)
    else
      (if run == [] then [] else [LinkedText(JoinText(run), readers)]) + [parts[0]]
        + LinkifyRuns(parts[1..], [], readers)
  }

  // ---- Elements -------------------------------------------------------------------

  datatype MarkupStyle = NoStyle | Styled(kind: Kind)

  // The style table is an object literal: for `constructor` the look-up finds what every object inherits.
  function InlineStyle(n: TagName): MarkupStyle {
    match n
    case B | Strong => Styled(HtmlTokens.B)
    case I | Em => Styled(HtmlTokens.I)
    case U | Ins => Styled(HtmlTokens.U)
    case S | Strike | Del => Styled(HtmlTokens.S)
    case Code => Styled(HtmlTokens.Code)
    case Other(name) => if name == "constructor" then Styled(HtmlTokens.Native) else NoStyle
    case _ => NoStyle
  }

  const BULLET := ['\U{2022}', ' ']

  function ListItemPrefix(item: Node, readers: Readers): string
    requires item.Element?
  {
    if item.ordinal.None? then BULLET
    else
      var explicit := if item.attrs.value.Some? then readers.listNumber(item.attrs.value.value) else None;
      Decimal(if explicit.Some? then explicit.value else item.ordinal.value) + ". "
  }

  // The child's content with a prefix, on lines of its own.
  function OwnLine(prefix: string, child: Inline): Inline {
    child.(
      text := "\n" + prefix + child.text + "\n",
      classic := TextTokens("\n" + prefix) + child.classic + TextTokens("\n"),
      rich := [Token.Br] + TextTokens(prefix) + child.rich + [Token.Br],
      plain := false)
  }

  function Anchor(rawHref: Option<string>, child: Inline, readers: Readers): Inline {
    var href := if rawHref.Some? then readers.safeHref(rawHref.value) else None;
    if href.None? then child.(plain := false)
    else if child.containsAnchor then child.(hasLinks := true)
    else
      var attrs := [Valued(Href, href.value)];
      var classicContent := if child.containsCode then TextTokens(child.text) else child.classic;
      var richContent := if child.containsCode then TextTokens(child.text) else child.rich;
      Inline(child.text, Wrap(HtmlTokens.A, attrs, classicContent), Wrap(HtmlTokens.A, attrs, richContent),
             true, if child.containsCode then 1 else child.maxDepth + 1, false, true, false)
  }

  function Formatted(kind: Kind, child: Inline): Inline {
    if kind == HtmlTokens.Code then
      if child.containsAnchor then child.(containsCode := false)
      else
        var escaped := Wrap(HtmlTokens.Code, [], TextTokens(child.text));
        Inline(child.text, escaped, escaped, child.hasLinks, 1, true, false, false)
    else if child.containsCode then child
    else child.(classic := Wrap(kind, [], child.classic), rich := Wrap(kind, [], child.rich),
                maxDepth := child.maxDepth + 1, plain := false)
  }

  datatype Role = ListItem | Definition | Link | Format(kind: Kind) | Block | NoRole

  function RoleOf(n: TagName): (r: Role)
    ensures r.Format? ==> IsInlineKind(r.kind) && !r.kind.A?
  {
    if n.Li? then ListItem
    else if n.Dt? || n.Dd? then Definition
    else if n.A? then Link
    else
      var style := InlineStyle(n);
      if style.Styled? then Format(style.kind) else if IsBlockElement(n) then Block else NoRole
  }

  // What an element makes of its non-empty parsed children.
  function RenderElement(node: Node, child: Inline, readers: Readers): Inline
    requires node.Element?
  {
    match RoleOf(node.name)
    case ListItem => OwnLine(ListItemPrefix(node, readers), child)
    case Definition | Block => OwnLine("", child)
    case Link => Anchor(node.attrs.href, child, readers)
    case Format(kind) => Formatted(kind, child)
    case NoRole => child
  }

  // ---- Parsing --------------------------------------------------------------------

  // The text of the nodes, without markup, at every level with its white space folded unless preserved.
  function CollectText(nodes: seq<Node>, ctx: Context, depth: nat, preserveWhitespace: bool): (r: (string, Context))
    ensures !ctx.bounded ==> r.1 == ctx
    decreases nodes, 1
  {
    var (joined, c) := CollectParts(nodes, ctx, depth, preserveWhitespace);
    var text := TextOf(UnifyNewlines(TextTokens(joined)));
    (if preserveWhitespace then text else NormalizeText(text, true), c)
  }

  function CollectParts(nodes: seq<Node>, ctx: Context, depth: nat, preserveWhitespace: bool): (r: (string, Context))
    ensures !ctx.bounded ==> r.1 == ctx
    decreases nodes, 0
  {
    if nodes == [] then ("", ctx)
    else
      var (entered, c1) := Enter(ctx, depth);
      if !entered then
        if c1.nodeLimitExceeded then ("", c1) else CollectParts(nodes[1..], c1, depth, preserveWhitespace)
      else
        var (own, c2) := OwnText(nodes[0], c1, depth, preserveWhitespace);
        var (rest, c3) := CollectParts(nodes[1..], c2, depth, preserveWhitespace);
        (own + rest, c3)
  }

  // What an entered node contributes to the text around it.
  function OwnText(node: Node, ctx: Context, depth: nat, preserveWhitespace: bool): (r: (string, Context))
    ensures !ctx.bounded ==> r.1 == ctx
    decreases node, 2
  {
    match node
    case Text(data) => (data, ctx)
    case NonContent => ("", ctx)
    case Element(name, _, _, children) =>
      if IsDropped(name) then ("", ctx)
      else if name.Br? then ("\n", ctx)
      else
        var (nested, c) := CollectText(children, ctx, depth + 1, preserveWhitespace);
        (if nested != [] && IsBlockElement(name) then "\n" + nested + "\n" else nested, c)
  }

  function CleanText(data: string): string {
    TextOf(Apply(Tabs, UnifyNewlines(TextTokens(data))))
  }

  // A wrapper that adds no markup: its children join the enclosing list of parts.
  predicate IsTransparent(n: TagName) {
    !IsDropped(n) && !n.Br? && !n.Table? && !n.Li? && !n.Dt? && !n.Dd? && !n.A? && InlineStyle(n).NoStyle?
    && !IsBlockElement(n)
  }

  function ParseInline(nodes: seq<Node>, ctx: Context, depth: nat, trimBoundary: bool, linkify: bool, readers: Readers):
    (r: (Inline, Context))
    ensures !ctx.bounded ==> r.1 == ctx
    decreases nodes, 1
  {
    var (rawParts, c) := ExpandNodes(nodes, ctx, depth, linkify, readers);
    (Combine(if linkify then LinkifyRuns(rawParts, [], readers) else rawParts, trimBoundary), c)
  }

  function ExpandNodes(
    nodes: seq<Node>, ctx: Context, depth: nat, linkify: bool, readers: Readers): (r: (seq<Inline>, Context))
    ensures !ctx.bounded ==> r.1 == ctx
    decreases nodes, 0
  {
    if nodes == [] then ([], ctx)
    else
      var (first, c1) := ExpandInlineNode(nodes[0], ctx, depth, linkify, readers);
      var (rest, c2) := ExpandNodes(nodes[1..], c1, depth, linkify, readers);
      (first + rest, c2)
  }

  function ExpandInlineNode(
    node: Node, ctx: Context, depth: nat, linkify: bool, readers: Readers): (r: (seq<Inline>, Context))
    ensures !ctx.bounded ==> r.1 == ctx
    decreases node, 2
  {
    if node.Element? && IsTransparent(node.name) then
      var (entered, c) := Enter(ctx, depth);
      if !entered then ([], c) else ExpandNodes(node.children, c, depth + 1, linkify, readers)
    else
      var (part, c) := ParseInlineNode(node, ctx, depth, linkify, readers);
      ([part], c)
  }

  function ParseInlineNode(
    node: Node, ctx: Context, depth: nat, linkify: bool, readers: Readers): (r: (Inline, Context))
    ensures !ctx.bounded ==> r.1 == ctx
    decreases node, 1
  {
    var (entered, c1) := Enter(ctx, depth);
    if !entered then (EmptyInline(), c1)
    else match node
      case Text(data) => (PlainText(CleanText(data)), c1)
      case NonContent => (EmptyInline(), c1)
      case Element(_, _, _, _) => ParseElement(node, c1, depth, linkify, readers)
  }

  function ParseElement(node: Node, ctx: Context, depth: nat, linkify: bool, readers: Readers): (r: (Inline, Context))
    requires node.Element?
    ensures !ctx.bounded ==> r.1 == ctx
    decreases node, 0
  {
    var name := node.name;
    if IsDropped(name) then (EmptyInline(), ctx)
    else if name.Br? then (Inline("\n", TextTokens("\n"), [Token.Br], false, 0, false, false, false), ctx)
    else if name.Table? then
      var (text, c) := CollectText([node], ctx, depth + 1, false);
      (PlainText(text).(plain := false), c)
    else
      var (child, c) := ParseInline(node.children, ctx, depth + 1, false, LinkifiesChildren(name, linkify), readers);
      (if child.text == [] then EmptyInline() else RenderElement(node, child, readers), c)
  }

  // Text under a source anchor or in code stays as it is.
  predicate LinkifiesChildren(name: TagName, linkify: bool) {
    linkify && !name.A? && !name.Pre? && !name.Code?
  }

  // ---- What holds of all inline content -----------------------------------------

  /**
   * The flags tell the truth about both markups, both markups nest properly,
   * and text, classic and rich content show the same visible characters.
   * Content without text has no markup, and the native tag is in both or neither.
   */
  ghost predicate Sound(c: Inline) {
    && SoundMarkup(c.classic, c)
    && SoundMarkup(c.rich, c)
    && (c.plain ==> OnlyText(c.classic) && OnlyText(c.rich))
    && (c.containsAnchor ==> c.hasLinks)
    && c.maxDepth >= 0
    && (c.text == [] ==> c.classic == [] && c.rich == [])
    && (ClosedTags(c.classic) <==> ClosedTags(c.rich))
  }

  ghost predicate SoundMarkup(ts: seq<Token>, c: Inline) {
    && WellFormed(ts)
    && Depth(ts) <= c.maxDepth
    && (Opens(ts, HtmlTokens.A) ==> c.containsAnchor)
    && (Opens(ts, HtmlTokens.Code) ==> c.containsCode || c.containsAnchor)
    && (forall k :: Opens(ts, k) ==> IsInlineKind(k))
    && Visible(ts) == NonSpace(c.text)
  }

  ghost predicate AllSound(parts: seq<Inline>) {
    forall p | p in parts :: Sound(p)
  }

  lemma PlainTextSound(text: string)
    ensures Sound(PlainText(text))
  {
    ScanText(TextTokens(text), []);
    VisibleOfText(text);
  }

  lemma LinkedTextSound(text: string, readers: Readers)
    ensures Sound(LinkedText(text, readers))
    ensures LinkedText(text, readers).text == text
  {
    PlainTextSound(text);
    MatchesInOrder(text, 0);
    LinkingKeepsText(text, Matches(text, 0), 0, readers.synthesizedHref);
    assert text[0..] == text;
  }

  lemma AlikeSound(a: seq<Token>, b: seq<Token>, c: Inline)
    requires Alike(a, b) && SoundMarkup(a, c)
    ensures SoundMarkup(b, c)
  {
  }

  // The join of sound parts, before its white space is normalised.
  function Joined(parts: seq<Inline>): Inline {
    Inline(JoinText(parts), JoinClassic(parts), JoinRich(parts), exists p | p in parts :: p.hasLinks,
           DeepestPart(parts), exists p | p in parts :: p.containsCode, exists p | p in parts :: p.containsAnchor,
           forall p | p in parts :: p.plain)
  }

  lemma MarkupConcat(a: seq<Token>, ca: Inline, b: seq<Token>, cb: Inline, c: Inline)
    requires SoundMarkup(a, ca) && SoundMarkup(b, cb)
    requires c.text == ca.text + cb.text && c.maxDepth == Max(ca.maxDepth, cb.maxDepth)
    requires c.containsCode == (ca.containsCode || cb.containsCode)
    requires c.containsAnchor == (ca.containsAnchor || cb.containsAnchor)
    ensures SoundMarkup(a + b, c)
  {
    WellFormedConcat(a, b);
    OpensConcat(a, b);
    VisibleConcat(a, b);
    NonSpaceConcat(ca.text, cb.text);
  }

  lemma NoMarkupSound(c: Inline)
    requires NonSpace(c.text) == [] && c.maxDepth >= 0
    ensures SoundMarkup([], c)
  {
    ScanText([], []);
  }

  lemma AlikeClosed(a: seq<Token>, b: seq<Token>)
    requires Alike(a, b)
    ensures ClosedTags(a) <==> ClosedTags(b)
  {
  }

  lemma {:induction false} JoinedSound(parts: seq<Inline>)
    requires AllSound(parts)
    ensures Sound(Joined(parts))
  {
    hide SoundMarkup, ClosedTags;
    if parts == [] {
      NoMarkupSound(Joined(parts));
    } else {
      var head, rest := parts[0], parts[1..];
      assert parts == [head] + rest;
      JoinedSound(rest);
      assert Sound(head);
      ClosedConcat(head.classic, JoinClassic(rest));
      ClosedConcat(head.rich, JoinRich(rest));
      MarkupConcat(head.classic, head, JoinClassic(rest), Joined(rest), Joined(parts));
      MarkupConcat(head.rich, head, JoinRich(rest), Joined(rest), Joined(parts));
    }
  }

  // Soundness looks at the flags and at the visible text only.
  lemma SoundMarkupOf(ts: seq<Token>, a: Inline, b: Inline)
    requires SoundMarkup(ts, a) && NonSpace(a.text) == NonSpace(b.text)
    requires a.maxDepth == b.maxDepth && a.containsCode == b.containsCode && a.containsAnchor == b.containsAnchor
    ensures SoundMarkup(ts, b)
  {
  }

  lemma AlikePlain(a: seq<Token>, b: seq<Token>)
    requires Alike(a, b)
    ensures OnlyText(a) ==> OnlyText(b)
  {
  }

  lemma CombineSound(parts: seq<Inline>, trimBoundary: bool)
    requires AllSound(parts)
    ensures Sound(Combine(parts, trimBoundary))
  {
    hide SoundMarkup, ClosedTags, Alike, NormalizeClassic, NormalizeRich, NormalizeText, JoinText, JoinClassic,
         JoinRich,
         DeepestPart, MentionsLink;
    var j, c := Joined(parts), Combine(parts, trimBoundary);
    JoinedSound(parts);
    NormalizeTextKeepsInk(j.text, trimBoundary);
    if c.text == [] {
      NoMarkupSound(c);
    } else {
      NormalizeClassicAlike(j.classic, trimBoundary);
      NormalizeRichAlike(j.rich, trimBoundary);
      AlikeSound(j.classic, c.classic, j);
      AlikeSound(j.rich, c.rich, j);
      SoundMarkupOf(c.classic, j, c);
      SoundMarkupOf(c.rich, j, c);
      AlikeClosed(j.classic, c.classic);
      AlikeClosed(j.rich, c.rich);
      AlikePlain(j.classic, c.classic);
      AlikePlain(j.rich, c.rich);
    }
  }

  lemma {:induction false} LinkifyRunsSound(parts: seq<Inline>, run: seq<Inline>, readers: Readers)
    requires AllSound(parts)
    ensures AllSound(LinkifyRuns(parts, run, readers))
    decreases |parts|
  {
    LinkedTextSound(JoinText(run), readers);
    if parts != [] {
      LinkifyRunsSound(parts[1..], if parts[0].plain then run + [parts[0]] else [], readers);
    }
  }

  // Markup without tags around sound markup, showing `shown` before it and nothing after it.
  lemma FramedMarkup(before: seq<Token>, ts: seq<Token>, after: seq<Token>, child: Inline, framed: Inline)
    requires SoundMarkup(ts, child) && child.maxDepth >= 0
    requires WellFormed(before) && WellFormed(after) && Depth(before) == Depth(after) == 0
    requires forall k :: !Opens(before, k) && !Opens(after, k)
    requires NonSpace(framed.text) == Visible(before) + NonSpace(child.text) && Visible(after) == []
    requires framed.maxDepth == child.maxDepth
    requires framed.containsCode == child.containsCode && framed.containsAnchor == child.containsAnchor
    ensures SoundMarkup(before + ts + after, framed)
  {
    WellFormedConcat(before, ts);
    WellFormedConcat(before + ts, after);
    OpensConcat(before, ts);
    OpensConcat(before + ts, after);
    VisibleConcat(before, ts);
    VisibleConcat(before + ts, after);
  }

  lemma OwnLineText(prefix: string, text: string)
    ensures NonSpace("\n" + prefix + text + "\n") == NonSpace(prefix) + NonSpace(text)
    ensures NonSpace("\n" + prefix) == NonSpace(prefix)
    ensures NonSpace("\n") == []
  {
    var lead := "\n" + prefix;
    assert lead[1..] == prefix;
    NonSpaceConcat(lead, text);
    NonSpaceConcat(lead + text, "\n");
  }

  lemma FramedClosed(before: seq<Token>, ts: seq<Token>, after: seq<Token>)
    requires forall i | 0 <= i < |before| :: !before[i].Open?
    requires forall i | 0 <= i < |after| :: !after[i].Open?
    ensures ClosedTags(before + ts + after) <==> ClosedTags(ts)
  {
    ClosedConcat(before, ts);
    ClosedConcat(before + ts, after);
  }

  lemma OwnLineSound(prefix: string, child: Inline)
    requires Sound(child)
    ensures Sound(OwnLine(prefix, child))
  {
    hide SoundMarkup, ClosedTags;
    var lead, newline, marker := TextTokens("\n" + prefix), TextTokens("\n"), TextTokens(prefix);
    FramedClosed(lead, child.classic, newline);
    FramedClosed([Token.Br] + marker, child.rich, [Token.Br]);
    OwnLineText(prefix, child.text);
    ScanText(lead, []);
    ScanText(newline, []);
    VisibleOfText("\n" + prefix);
    VisibleOfText("\n");
    FramedMarkup(lead, child.classic, newline, child, OwnLine(prefix, child));
    ScanText(marker, []);
    VisibleOfText(prefix);
    OpensConcat([Token.Br], marker);
    VisibleConcat([Token.Br], marker);
    WellFormedConcat([Token.Br], marker);
    FramedMarkup([Token.Br] + marker, child.rich, [Token.Br], child, OwnLine(prefix, child));
  }

  lemma AnchorSound(rawHref: Option<string>, child: Inline, readers: Readers)
    requires Sound(child) && child.text != []
    ensures Sound(Anchor(rawHref, child, readers))
  {
    var href := if rawHref.Some? then readers.safeHref(rawHref.value) else None;
    if href.Some? && !child.containsAnchor {
      var attrs := [Valued(Href, href.value)];
      PlainTextSound(child.text);
      ScanText(TextTokens(child.text), []);
      WrapWellFormed(HtmlTokens.A, attrs, if child.containsCode then TextTokens(child.text) else child.classic);
      WrapWellFormed(HtmlTokens.A, attrs, if child.containsCode then TextTokens(child.text) else child.rich);
    }
  }

  lemma FormattedSound(kind: Kind, child: Inline)
    requires Sound(child) && child.text != []
    requires IsInlineKind(kind) && !kind.A?
    ensures Sound(Formatted(kind, child))
  {
    if kind.Code? {
      ScanText(TextTokens(child.text), []);
      PlainTextSound(child.text);
      WrapWellFormed(HtmlTokens.Code, [], TextTokens(child.text));
    } else {
      WrapWellFormed(kind, [], child.classic);
      WrapWellFormed(kind, [], child.rich);
    }
  }

  lemma RenderElementSound(node: Node, child: Inline, readers: Readers)
    requires node.Element? && Sound(child) && child.text != []
    ensures Sound(RenderElement(node, child, readers))
  {
    match RoleOf(node.name)
    case ListItem => OwnLineSound(ListItemPrefix(node, readers), child);
    case Definition | Block => OwnLineSound("", child);
    case Link => AnchorSound(node.attrs.href, child, readers);
    case Format(kind) => FormattedSound(kind, child);
    case NoRole =>
  }

  /**
   * For every list of DOM nodes: classic and rich output are balanced over the
   * inline tags, no link holds a link or code, code holds only text, the depth
   * is bounded by `maxDepth`, and nothing visible is lost or added.
   */
  lemma {:induction false} ParseInlineSound(
    nodes: seq<Node>, ctx: Context, depth: nat, trimBoundary: bool, linkify: bool, readers: Readers)
    ensures Sound(ParseInline(nodes, ctx, depth, trimBoundary, linkify, readers).0)
    decreases nodes, 1
  {
    var (rawParts, _) := ExpandNodes(nodes, ctx, depth, linkify, readers);
    ExpandNodesSound(nodes, ctx, depth, linkify, readers);
    LinkifyRunsSound(rawParts, [], readers);
    CombineSound(if linkify then LinkifyRuns(rawParts, [], readers) else rawParts, trimBoundary);
  }

  lemma {:induction false} ExpandNodesSound(nodes: seq<Node>, ctx: Context, depth: nat, linkify: bool, readers: Readers)
    ensures AllSound(ExpandNodes(nodes, ctx, depth, linkify, readers).0)
    decreases nodes, 0
  {
    if nodes != [] {
      ExpandInlineNodeSound(nodes[0], ctx, depth, linkify, readers);
      ExpandNodesSound(nodes[1..], ExpandInlineNode(nodes[0], ctx, depth, linkify, readers).1, depth, linkify, readers);
    }
  }

  lemma {:induction false} ExpandInlineNodeSound(node: Node, ctx: Context, depth: nat, linkify: bool, readers: Readers)
    ensures AllSound(ExpandInlineNode(node, ctx, depth, linkify, readers).0)
    decreases node, 2
  {
    if node.Element? && IsTransparent(node.name) {
      var (entered, c) := Enter(ctx, depth);
      if entered {
        ExpandNodesSound(node.children, c, depth + 1, linkify, readers);
      }
    } else {
      ParseInlineNodeSound(node, ctx, depth, linkify, readers);
    }
  }

  lemma {:induction false} ParseInlineNodeSound(node: Node, ctx: Context, depth: nat, linkify: bool, readers: Readers)
    ensures Sound(ParseInlineNode(node, ctx, depth, linkify, readers).0)
    decreases node, 1
  {
    var (entered, c1) := Enter(ctx, depth);
    PlainTextSound("");
    if entered && node.Text? {
      PlainTextSound(CleanText(node.data));
    } else if entered && node.Element? {
      ParseElementSound(node, c1, depth, linkify, readers);
    }
  }

  lemma {:induction false} ParseElementSound(node: Node, ctx: Context, depth: nat, linkify: bool, readers: Readers)
    requires node.Element?
    ensures Sound(ParseElement(node, ctx, depth, linkify, readers).0)
    decreases node, 0
  {
    PlainTextSound("");
    if node.name.Br? {
      PlainTextSound("\n");
    } else if node.name.Table? {
      PlainTextSound(CollectText([node], ctx, depth + 1, false).0);
    } else if !IsDropped(node.name) {
      var childLinkify := LinkifiesChildren(node.name, linkify);
      var (child, _) := ParseInline(node.children, ctx, depth + 1, false, childLinkify, readers);
      ParseInlineSound(node.children, ctx, depth + 1, false, childLinkify, readers);
      if child.text != [] {
        RenderElementSound(node, child, readers);
      }
    }
  }
}
