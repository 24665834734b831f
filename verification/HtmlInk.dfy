/**
 * The visible characters of inline content, read off the tree: its text, with
 * a marker in front of every list item that leaves text.
 */
module HtmlInk {
  import opened HtmlTokens
  import opened HtmlNormalize
  import opened HtmlLinks
  import opened HtmlDom
  import opened HtmlInline
  import opened HtmlRender

  // ---- Inline content -------------------------------------------------------------------

  // The characters that collecting text finds.
  function CollectedInk(nodes: seq<Node>): string {
    if nodes == [] then [] else CollectedNodeInk(nodes[0]) + CollectedInk(nodes[1..])
  }

  function CollectedNodeInk(node: Node): string {
    if node.Text? then NonSpace(node.data)
    else if node.Element? && !IsDropped(node.name) && !node.name.Br? then CollectedInk(node.children)
    else []
  }

  // Inline content that leaves any text at all, be it white space.
  predicate HasInlineText(nodes: seq<Node>) {
    nodes != [] && (NodeHasText(nodes[0]) || HasInlineText(nodes[1..]))
  }

  predicate NodeHasText(node: Node) {
    if node.Text? then node.data != []
    else if node.NonContent? || IsDropped(node.name) then false
    else if node.name.Br? then true
    else if node.name.Table? then CollectedNodeInk(node) != []
    else HasInlineText(node.children)
  }

  // What inline content shows, with or without the markers of list items.
  function InlineInk(nodes: seq<Node>, readers: Readers, marks: bool): string {
    if nodes == [] then [] else NodeInk(nodes[0], readers, marks) + InlineInk(nodes[1..], readers, marks)
  }

  function NodeInk(node: Node, readers: Readers, marks: bool): string {
    if node.Text? then NonSpace(node.data)
    else if node.NonContent? || IsDropped(node.name) || node.name.Br? then []
    else if node.name.Table? then CollectedNodeInk(node)
    else
      (if marks && node.name.Li? && HasInlineText(node.children) then NonSpace(ListItemPrefix(node, readers)) else [])
        + InlineInk(node.children, readers, marks)
  }

  // ---- Normalising keeps ink, and keeps text that is there ---------------------------------

  lemma {:induction false} TextLengthOf(ts: seq<Token>)
    requires OnlyText(ts)
    ensures |TextOf(ts)| == |ts|
  {
    if ts != [] {
      assert OnlyText(ts[1..]);
      TextLengthOf(ts[1..]);
    }
  }

  lemma {:induction false} ApplyKeepsSome(p: Pass, ts: seq<Token>)
    requires !p.Breaks? && OnlyText(ts)
    ensures OnlyText(Apply(p, ts)) && (Apply(p, ts) == [] <==> ts == [])
  {
    ApplyAlike(p, ts);
    if ts != [] {
      var n := RunLength(p, ts);
      if n > 0 && p.AroundNewlines? && Ch('\n') in ts[..n] {
        NewlinesStay(ts[..n]);
      }
    }
  }

  lemma {:induction false} NewlinesStay(run: seq<Token>)
    requires Ch('\n') in run
    ensures OnlyNewlines(run) != []
  {
    if run[0] != Ch('\n') {
      NewlinesStay(run[1..]);
    }
  }

  // White space may shrink, but text that is there does not vanish.
  lemma NormalizedText(value: string)
    ensures NonSpace(NormalizeText(value, false)) == NonSpace(value)
    ensures NormalizeText(value, false) == [] <==> value == []
  {
    NormalizeTextKeepsInk(value, false);
    var a := TextTokens(value);
    var b := UnifyNewlines(a);
    UnifyNewlinesAlike(a);
    var c := Apply(Tabs, b);
    ApplyKeepsSome(Tabs, b);
    var d := Apply(AroundNewlines, c);
    ApplyKeepsSome(AroundNewlines, c);
    var e := Apply(Spaces, d);
    ApplyKeepsSome(Spaces, d);
    ApplyKeepsSome(Newlines, e);
    TextLengthOf(Apply(Newlines, e));
  }

  lemma {:induction false} TrimEndKeepsFirst(ts: seq<Token>)
    ensures TrimEnd(ts) != [] ==> TrimEnd(ts)[0] == ts[0]
    decreases |ts|
  {
    if ts != [] && ts[|ts| - 1].Ch? && IsSpace(ts[|ts| - 1].c) {
      TrimEndKeepsFirst(ts[..|ts| - 1]);
    }
  }

  lemma {:induction false} TrimStartFirst(ts: seq<Token>)
    ensures TrimStart(ts) != [] ==> !(TrimStart(ts)[0].Ch? && IsSpace(TrimStart(ts)[0].c))
  {
    if ts != [] {
      TrimStartFirst(ts[1..]);
    }
  }

  // Trimmed text is empty exactly if it shows nothing.
  lemma TrimmedText(value: string)
    ensures NonSpace(NormalizeText(value, true)) == NonSpace(value)
    ensures NormalizeText(value, true) == [] <==> NonSpace(value) == []
  {
    NormalizeTextKeepsInk(value, true);
    NormalizeClassicAlike(TextTokens(value), true);
    var ts := NormalizeClassic(TextTokens(value), true);
    var untrimmed := NormalizeClassic(TextTokens(value), false);
    assert ts == Trim(untrimmed);
    TrimStartFirst(untrimmed);
    TrimEndKeepsFirst(TrimStart(untrimmed));
    TextLengthOf(ts);
    if ts != [] {
      assert ts[0].Ch? && !IsSpace(ts[0].c);
      assert Visible(ts) != [];
      NonSpaceOfText(ts);
    }
  }

  // ---- Collected text ------------------------------------------------------------------------

  lemma CleanTextInk(data: string)
    ensures NonSpace(CleanText(data)) == NonSpace(data) && (CleanText(data) == [] <==> data == [])
  {
    var a := TextTokens(data);
    var b := UnifyNewlines(a);
    UnifyNewlinesAlike(a);
    ApplyAlike(Tabs, b);
    ApplyKeepsSome(Tabs, b);
    TextLengthOf(Apply(Tabs, b));
    NonSpaceOfText(Apply(Tabs, b));
    VisibleOfText(data);
  }

  lemma {:induction false} CollectTextInk(nodes: seq<Node>, ctx: Context, depth: nat, preserve: bool)
    requires !ctx.bounded
    ensures NonSpace(CollectText(nodes, ctx, depth, preserve).0) == CollectedInk(nodes)
    ensures !preserve ==> (CollectText(nodes, ctx, depth, preserve).0 == [] <==> CollectedInk(nodes) == [])
    decreases nodes, 1
  {
    CollectPartsInk(nodes, ctx, depth, preserve);
    var joined := CollectParts(nodes, ctx, depth, preserve).0;
    var unified := UnifyNewlines(TextTokens(joined));
    UnifyNewlinesAlike(TextTokens(joined));
    NonSpaceOfText(unified);
    VisibleOfText(joined);
    TrimmedText(TextOf(unified));
  }

  lemma {:induction false} CollectPartsInk(nodes: seq<Node>, ctx: Context, depth: nat, preserve: bool)
    requires !ctx.bounded
    ensures NonSpace(CollectParts(nodes, ctx, depth, preserve).0) == CollectedInk(nodes)
    decreases nodes, 0
  {
    if nodes != [] {
      OwnTextInk(nodes[0], ctx, depth, preserve);
      CollectPartsInk(nodes[1..], ctx, depth, preserve);
      NonSpaceConcat(OwnText(nodes[0], ctx, depth, preserve).0, CollectParts(nodes[1..], ctx, depth, preserve).0);
    }
  }

  lemma {:induction false} OwnTextInk(node: Node, ctx: Context, depth: nat, preserve: bool)
    requires !ctx.bounded
    ensures NonSpace(OwnText(node, ctx, depth, preserve).0) == CollectedNodeInk(node)
    decreases node, 2
  {
    if node.Element? && !IsDropped(node.name) {
      hide CollectText, CollectedInk;
      var nested := CollectText(node.children, ctx, depth + 1, preserve).0;
      CollectTextInk(node.children, ctx, depth + 1, preserve);
      LineOfItsOwn(nested);
    }
  }

  lemma LineOfItsOwn(text: string)
    ensures NonSpace("\n" + text + "\n") == NonSpace(text) && NonSpace("\n") == []
  {
    OwnLineText("", text);
    assert "\n" + "" + text + "\n" == "\n" + text + "\n";
  }

  // ---- Inline parsing --------------------------------------------------------------------------

  lemma {:induction false} JoinTextConcat(a: seq<Inline>, b: seq<Inline>)
    ensures JoinText(a + b) == JoinText(a) + JoinText(b)
  {
    if a == [] {
      assert a + b == b;
    } else {
      assert (a + b)[0] == a[0] && (a + b)[1..] == a[1..] + b;
      JoinTextConcat(a[1..], b);
    }
  }

  // Linking runs of plain parts changes no text.
  lemma {:induction false} LinkedRunsText(parts: seq<Inline>, run: seq<Inline>, readers: Readers)
    ensures JoinText(LinkifyRuns(parts, run, readers)) == JoinText(run) + JoinText(parts)
    decreases |parts|
  {
    hide Sound, LinkedText, NonSpace;
    var linked := LinkedText(JoinText(run), readers);
    LinkedTextSound(JoinText(run), readers);
    assert JoinText([linked]) == linked.text + JoinText([]);
    assert run == [] ==> JoinText(run) == [];
    if parts != [] {
      var head, rest := parts[0], parts[1..];
      assert parts == [head] + rest;
      JoinTextConcat([head], rest);
      if head.plain {
        LinkedRunsText(rest, run + [head], readers);
        JoinTextConcat(run, [head]);
      } else {
        LinkedRunsText(rest, [], readers);
        var flushed := if run == [] then [] else [linked];
        JoinTextConcat(flushed + [head], LinkifyRuns(rest, [], readers));
        JoinTextConcat(flushed, [head]);
      }
    }
  }

  // The text of parsed parts: its ink, and whether there is any.
  ghost predicate Reads(text: string, ink: string, some: bool) {
    NonSpace(text) == ink && (text != [] <==> some)
  }

  lemma ReadsBoth(a: string, b: string, x: string, y: string, p: bool, q: bool)
    requires Reads(a, x, p) && Reads(b, y, q)
    ensures Reads(a + b, x + y, p || q)
  {
    NonSpaceConcat(a, b);
  }

  lemma {:induction false} ParseInlineInk(
    nodes: seq<Node>, ctx: Context, depth: nat, trim: bool, linkify: bool, readers: Readers)
    requires !ctx.bounded
    ensures var text := ParseInline(nodes, ctx, depth, trim, linkify, readers).0.text;
            Reads(text, InlineInk(nodes, readers, true),
                  if trim then InlineInk(nodes, readers, true) != [] else HasInlineText(nodes))
    decreases nodes, 1
  {
    hide ExpandNodes, LinkifyRuns, NormalizeText, NormalizeClassic, NormalizeRich, InlineInk, HasInlineText;
    ExpandNodesInk(nodes, ctx, depth, linkify, readers);
    var parts := ExpandNodes(nodes, ctx, depth, linkify, readers).0;
    var joined := if linkify then LinkifyRuns(parts, [], readers) else parts;
    LinkedRunsText(parts, [], readers);
    assert JoinText([]) + JoinText(parts) == JoinText(parts);
    assert ParseInline(nodes, ctx, depth, trim, linkify, readers).0.text == NormalizeText(JoinText(joined), trim);
    if trim {
      TrimmedText(JoinText(parts));
    } else {
      NormalizedText(JoinText(parts));
    }
  }

  lemma {:induction false} ExpandNodesInk(nodes: seq<Node>, ctx: Context, depth: nat, linkify: bool, readers: Readers)
    requires !ctx.bounded
    ensures Reads(JoinText(ExpandNodes(nodes, ctx, depth, linkify, readers).0), InlineInk(nodes, readers, true),
                  HasInlineText(nodes))
    decreases nodes, 0
  {
    if nodes != [] {
      ExpandInlineNodeInk(nodes[0], ctx, depth, linkify, readers);
      ExpandNodesInk(nodes[1..], ctx, depth, linkify, readers);
      var first := ExpandInlineNode(nodes[0], ctx, depth, linkify, readers).0;
      var rest := ExpandNodes(nodes[1..], ctx, depth, linkify, readers).0;
      JoinTextConcat(first, rest);
      ReadsBoth(JoinText(first), JoinText(rest), NodeInk(nodes[0], readers, true), InlineInk(nodes[1..], readers, true),
                NodeHasText(nodes[0]), HasInlineText(nodes[1..]));
    }
  }

  lemma {:induction false} ExpandInlineNodeInk(node: Node, ctx: Context, depth: nat, linkify: bool, readers: Readers)
    requires !ctx.bounded
    ensures Reads(JoinText(ExpandInlineNode(node, ctx, depth, linkify, readers).0), NodeInk(node, readers, true),
                  NodeHasText(node))
    decreases node, 2
  {
    if node.Element? && IsTransparent(node.name) {
      ExpandNodesInk(node.children, ctx, depth + 1, linkify, readers);
    } else {
      ParseInlineNodeInk(node, ctx, depth, linkify, readers);
      var part := ParseInlineNode(node, ctx, depth, linkify, readers).0;
      assert JoinText([part]) == part.text + JoinText([]);
      assert part.text + [] == part.text;
    }
  }

  lemma {:induction false} ParseInlineNodeInk(node: Node, ctx: Context, depth: nat, linkify: bool, readers: Readers)
    requires !ctx.bounded
    ensures Reads(ParseInlineNode(node, ctx, depth, linkify, readers).0.text, NodeInk(node, readers, true),
                  NodeHasText(node))
    decreases node, 1
  {
    if node.Text? {
      CleanTextInk(node.data);
    } else if node.Element? {
      ParseElementInk(node, ctx, depth, linkify, readers);
    }
  }

  // An element adds at most a marker and newlines to the text of its children.
  lemma RenderedElementText(node: Node, child: Inline, readers: Readers)
    requires node.Element? && child.text != []
    ensures var text := RenderElement(node, child, readers).text;
            && text != []
            && NonSpace(text) == (if node.name.Li? then NonSpace(ListItemPrefix(node, readers)) else [])
               + NonSpace(child.text)
  {
    var shown := NonSpace(child.text);
    assert NonSpace("") == [] && [] + shown == shown;
    hide Wrap, ListItemPrefix, Anchor, Formatted, NonSpace;
    match RoleOf(node.name)
    case ListItem => OwnLineText(ListItemPrefix(node, readers), child.text);
    case Definition | Block => OwnLineText("", child.text);
    case Link => MarkupKeepsText(node.attrs.href, HtmlTokens.A, child, readers);
    case Format(kind) => MarkupKeepsText(None, kind, child, readers);
    case NoRole =>
  }

  lemma MarkupKeepsText(href: Option<string>, kind: Kind, child: Inline, readers: Readers)
    ensures Anchor(href, child, readers).text == child.text && Formatted(kind, child).text == child.text
  {
  }

  lemma {:induction false} ParseElementInk(node: Node, ctx: Context, depth: nat, linkify: bool, readers: Readers)
    requires !ctx.bounded && node.Element?
    ensures Reads(ParseElement(node, ctx, depth, linkify, readers).0.text, NodeInk(node, readers, true),
                  NodeHasText(node))
    decreases node, 0
  {
    var name := node.name;
    if name.Table? {
      CollectTextInk([node], ctx, depth + 1, false);
    } else if name.Br? {
      OwnLineText("", "");
    } else if !IsDropped(name) {
      var childLinkify := LinkifiesChildren(name, linkify);
      ParseInlineInk(node.children, ctx, depth + 1, false, childLinkify, readers);
      var child := ParseInline(node.children, ctx, depth + 1, false, childLinkify, readers).0;
      if child.text != [] {
        RenderedElementText(node, child, readers);
      }
    }
  }
}
