/**
 * The limits of the inline parser never change output silently: if no limit
 * was reported by the end, the bounded parse returned exactly what a parse
 * without limits returns.
 */
module HtmlBudget {
  import opened HtmlLinks
  import opened HtmlDom
  import opened HtmlInline

  // A step from `before` to `after` that keeps reported limits, and is the unbounded step when none is reported.
  ghost predicate Agrees<T>(before: Context, after: Context, result: T, unbounded: (T, Context)) {
    && after.bounded
    && after.sourceTruncated == before.sourceTruncated && after.domTruncated == before.domTruncated
    && (before.LimitHit() ==> after.LimitHit())
    && (!after.LimitHit() ==> unbounded == (result, after.Unbounded()))
  }

  lemma EnterAgrees(ctx: Context, depth: nat)
    requires ctx.bounded
    ensures var (entered, c) := Enter(ctx, depth);
            Agrees(ctx, c, entered, Enter(ctx.Unbounded(), depth)) && (!entered ==> c.LimitHit())
  {
  }

  lemma {:induction false} CollectTextAgrees(nodes: seq<Node>, ctx: Context, depth: nat, preserve: bool)
    requires ctx.bounded
    ensures var (r, c) := CollectText(nodes, ctx, depth, preserve);
            Agrees(ctx, c, r, CollectText(nodes, ctx.Unbounded(), depth, preserve))
    decreases nodes, 1
  {
    CollectPartsAgrees(nodes, ctx, depth, preserve);
  }

  lemma {:induction false} CollectPartsAgrees(nodes: seq<Node>, ctx: Context, depth: nat, preserve: bool)
    requires ctx.bounded
    ensures var (r, c) := CollectParts(nodes, ctx, depth, preserve);
            Agrees(ctx, c, r, CollectParts(nodes, ctx.Unbounded(), depth, preserve))
    decreases nodes, 0
  {
    if nodes != [] {
      var (entered, c1) := Enter(ctx, depth);
      EnterAgrees(ctx, depth);
      if !entered {
        CollectPartsAgrees(nodes[1..], c1, depth, preserve);
      } else {
        OwnTextAgrees(nodes[0], c1, depth, preserve);
        CollectPartsAgrees(nodes[1..], OwnText(nodes[0], c1, depth, preserve).1, depth, preserve);
      }
    }
  }

  lemma {:induction false} OwnTextAgrees(node: Node, ctx: Context, depth: nat, preserve: bool)
    requires ctx.bounded
    ensures var (r, c) := OwnText(node, ctx, depth, preserve);
            Agrees(ctx, c, r, OwnText(node, ctx.Unbounded(), depth, preserve))
    decreases node, 2
  {
    if node.Element? && !IsDropped(node.name) && !node.name.Br? {
      CollectTextAgrees(node.children, ctx, depth + 1, preserve);
    }
  }

  lemma {:induction false} ParseInlineAgrees(
    nodes: seq<Node>, ctx: Context, depth: nat, trimBoundary: bool, linkify: bool, readers: Readers)
    requires ctx.bounded
    ensures var (r, c) := ParseInline(nodes, ctx, depth, trimBoundary, linkify, readers);
            Agrees(ctx, c, r, ParseInline(nodes, ctx.Unbounded(), depth, trimBoundary, linkify, readers))
    decreases nodes, 1
  {
    ExpandNodesAgrees(nodes, ctx, depth, linkify, readers);
  }

  lemma {:induction false} ExpandNodesAgrees(
    nodes: seq<Node>, ctx: Context, depth: nat, linkify: bool, readers: Readers)
    requires ctx.bounded
    ensures var (r, c) := ExpandNodes(nodes, ctx, depth, linkify, readers);
            Agrees(ctx, c, r, ExpandNodes(nodes, ctx.Unbounded(), depth, linkify, readers))
    decreases nodes, 0
  {
    if nodes != [] {
      var c1 := ExpandInlineNode(nodes[0], ctx, depth, linkify, readers).1;
      ExpandInlineNodeAgrees(nodes[0], ctx, depth, linkify, readers);
      ExpandNodesAgrees(nodes[1..], c1, depth, linkify, readers);
    }
  }

  lemma {:induction false} ExpandInlineNodeAgrees(node: Node, ctx: Context, depth: nat, linkify: bool, readers: Readers)
    requires ctx.bounded
    ensures var (r, c) := ExpandInlineNode(node, ctx, depth, linkify, readers);
            Agrees(ctx, c, r, ExpandInlineNode(node, ctx.Unbounded(), depth, linkify, readers))
    decreases node, 2
  {
    if node.Element? && IsTransparent(node.name) {
      var (entered, c) := Enter(ctx, depth);
      EnterAgrees(ctx, depth);
      if entered {
        ExpandNodesAgrees(node.children, c, depth + 1, linkify, readers);
      }
    } else {
      ParseInlineNodeAgrees(node, ctx, depth, linkify, readers);
    }
  }

  lemma {:induction false} ParseInlineNodeAgrees(node: Node, ctx: Context, depth: nat, linkify: bool, readers: Readers)
    requires ctx.bounded
    ensures var (r, c) := ParseInlineNode(node, ctx, depth, linkify, readers);
            Agrees(ctx, c, r, ParseInlineNode(node, ctx.Unbounded(), depth, linkify, readers))
    decreases node, 1
  {
    var (entered, c1) := Enter(ctx, depth);
    EnterAgrees(ctx, depth);
    if entered && node.Element? {
      ParseElementAgrees(node, c1, depth, linkify, readers);
    }
  }

  lemma {:induction false} ParseElementAgrees(node: Node, ctx: Context, depth: nat, linkify: bool, readers: Readers)
    requires ctx.bounded && node.Element?
    ensures var (r, c) := ParseElement(node, ctx, depth, linkify, readers);
            Agrees(ctx, c, r, ParseElement(node, ctx.Unbounded(), depth, linkify, readers))
    decreases node, 0
  {
    hide ParseInline, CollectText, RenderElement;
    if node.name.Table? {
      CollectTextAgrees([node], ctx, depth + 1, false);
    } else if !IsDropped(node.name) && !node.name.Br? {
      ParseInlineAgrees(node.children, ctx, depth + 1, false, LinkifiesChildren(node.name, linkify), readers);
    }
  }
}
