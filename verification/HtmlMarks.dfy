/**
 * Links and code in inline content, read off the tree. What an element makes of
 * its content depends on whether the content holds code or a link, and bare URLs
 * are searched in whole runs of text, which pass through elements that show
 * nothing and wrappers that add no markup.
 */
module HtmlMarks {
  import opened HtmlTokens
  import opened HtmlNormalize
  import opened HtmlLinks
  import opened HtmlDom
  import opened HtmlInline
  import opened HtmlInk

  predicate IsLinked(text: string, readers: Readers) {
    MatchesInOrder(text, 0);
    SomeLink(text, Matches(text, 0), 0, readers.synthesizedHref)
  }

  predicate IsAnchor(node: Node, readers: Readers)
    requires node.Element?
  {
    node.name.A? && node.attrs.href.Some? && readers.safeHref(node.attrs.href.value).Some?
  }

  // Whether the nodes end a run of text with a link in it or hold a link, and the text that runs on behind them.
  function Linking(nodes: seq<Node>, run: string, linkify: bool, readers: Readers): (bool, string)
    decreases nodes, 0
  {
    if nodes == [] then (false, run)
    else
      var (first, next) := NodeLinking(nodes[0], run, linkify, readers);
      var (later, end) := Linking(nodes[1..], next, linkify, readers);
      (first || later, end)
  }

  function NodeLinking(node: Node, run: string, linkify: bool, readers: Readers): (bool, string)
    decreases node, 2
  {
    if node.Text? then (false, run + CleanText(node.data))
    else if node.NonContent? || IsDropped(node.name) then (false, run)
    else if IsTransparent(node.name) then Linking(node.children, run, linkify, readers)
    else if node.name.Br? || node.name.Table? then (linkify && IsLinked(run, readers), "")
    else if !HasInlineText(node.children) then (false, run)
    else
      ((linkify && IsLinked(run, readers)) || IsAnchor(node, readers)
        || HoldsLink(node.children, LinkifiesChildren(node.name, linkify), readers), "")
  }

  predicate HoldsLink(nodes: seq<Node>, linkify: bool, readers: Readers)
    decreases nodes, 1
  {
    var (some, end) := Linking(nodes, "", linkify, readers);
    some || (linkify && IsLinked(end, readers))
  }

  predicate HoldsCode(nodes: seq<Node>, linkify: bool, readers: Readers) {
    nodes != [] && (NodeHoldsCode(nodes[0], linkify, readers) || HoldsCode(nodes[1..], linkify, readers))
  }

  // A link around code keeps only its text, and code around a link is none.
  predicate NodeHoldsCode(node: Node, linkify: bool, readers: Readers) {
    && node.Element? && !IsDropped(node.name) && !node.name.Br? && !node.name.Table?
    && if IsTransparent(node.name) then HoldsCode(node.children, linkify, readers)
       else
         var below := LinkifiesChildren(node.name, linkify);
         && HasInlineText(node.children)
         && if node.name.Code? then !HoldsLink(node.children, below, readers)
            else
              && (IsAnchor(node, readers) ==> HoldsLink(node.children, below, readers))
              && HoldsCode(node.children, below, readers)
  }

  // ---- The flags of parsed content ------------------------------------------------------------

  predicate Tame(c: Inline) {
    c.plain ==> !c.containsCode && !c.containsAnchor
  }

  predicate AllTame(parts: seq<Inline>) {
    forall p | p in parts :: Tame(p)
  }

  predicate SomeCode(parts: seq<Inline>) {
    exists p | p in parts :: p.containsCode
  }

  predicate SomeAnchor(parts: seq<Inline>) {
    exists p | p in parts :: p.containsAnchor
  }

  // The same over parsed parts.
  function PartsLinking(parts: seq<Inline>, run: string, linkify: bool, readers: Readers): (bool, string) {
    if parts == [] then (false, run)
    else if parts[0].plain then PartsLinking(parts[1..], run + parts[0].text, linkify, readers)
    else
      var (later, end) := PartsLinking(parts[1..], "", linkify, readers);
      ((linkify && IsLinked(run, readers)) || parts[0].containsAnchor || later, end)
  }

  lemma {:induction false} PartsLinkingConcat(
    a: seq<Inline>, b: seq<Inline>, run: string, linkify: bool, readers: Readers)
    ensures var (first, next) := PartsLinking(a, run, linkify, readers);
            var (later, end) := PartsLinking(b, next, linkify, readers);
            PartsLinking(a + b, run, linkify, readers) == (first || later, end)
  {
    hide IsLinked;
    if a == [] {
      assert a + b == b;
    } else {
      assert (a + b)[0] == a[0] && (a + b)[1..] == a[1..] + b;
      PartsLinkingConcat(a[1..], b, if a[0].plain then run + a[0].text else "", linkify, readers);
    }
  }

  lemma FirstPart(parts: seq<Inline>)
    requires parts != []
    ensures SomeCode(parts) <==> parts[0].containsCode || SomeCode(parts[1..])
    ensures SomeAnchor(parts) <==> parts[0].containsAnchor || SomeAnchor(parts[1..])
    ensures AllTame(parts) <==> Tame(parts[0]) && AllTame(parts[1..])
  {
    assert parts == [parts[0]] + parts[1..];
  }

  lemma {:induction false} UnlinkedParts(parts: seq<Inline>, run: string, readers: Readers)
    requires AllTame(parts)
    ensures SomeAnchor(parts) <==> PartsLinking(parts, run, false, readers).0
  {
    hide SomeAnchor, AllTame, SomeCode;
    if parts == [] {
      assert !SomeAnchor([]) by { NothingMarked(); }
    } else {
      FirstPart(parts);
      UnlinkedParts(parts[1..], if parts[0].plain then run + parts[0].text else "", readers);
    }
  }

  lemma NothingMarked()
    ensures !SomeAnchor([]) && !SomeCode([]) && AllTame([])
  {
  }

  lemma Flushed(run: seq<Inline>, readers: Readers)
    ensures var flushed := if run == [] then [] else [LinkedText(JoinText(run), readers)];
            AllTame(flushed) && !SomeCode(flushed) && (SomeAnchor(flushed) <==> IsLinked(JoinText(run), readers))
  {
  }

  lemma MarkedConcat(a: seq<Inline>, b: seq<Inline>)
    ensures SomeCode(a + b) <==> SomeCode(a) || SomeCode(b)
    ensures SomeAnchor(a + b) <==> SomeAnchor(a) || SomeAnchor(b)
    ensures AllTame(a + b) <==> AllTame(a) && AllTame(b)
  {
    assert forall p | p in a :: p in a + b;
    assert forall p | p in b :: p in a + b;
  }

  // Linking the runs of text finds the links of `PartsLinking`, and leaves code alone.
  lemma {:induction false} LinkedParts(parts: seq<Inline>, run: seq<Inline>, readers: Readers)
    requires AllTame(parts)
    ensures var (some, end) := PartsLinking(parts, JoinText(run), true, readers);
            var linked := LinkifyRuns(parts, run, readers);
            && AllTame(linked) && (SomeCode(linked) <==> SomeCode(parts))
            && (SomeAnchor(linked) <==> some || IsLinked(end, readers))
    decreases |parts|
  {
    hide SomeAnchor, AllTame, SomeCode, IsLinked, LinkedText, JoinText;
    var flushed := if run == [] then [] else [LinkedText(JoinText(run), readers)];
    Flushed(run, readers);
    if parts == [] {
      NothingMarked();
    } else {
      var first := parts[0];
      FirstPart(parts);
      if first.plain {
        JoinOne(run, first);
        LinkedParts(parts[1..], run + [first], readers);
      } else {
        JoinNone();
        LinkedParts(parts[1..], [], readers);
        var rest := LinkifyRuns(parts[1..], [], readers);
        FirstPart([first] + rest);
        MarkedConcat(flushed, [first] + rest);
        assert flushed + ([first] + rest) == flushed + [first] + rest;
      }
    }
  }

  lemma JoinNone()
    ensures JoinText([]) == ""
  {
  }

  lemma JoinOne(run: seq<Inline>, part: Inline)
    ensures JoinText(run + [part]) == JoinText(run) + part.text
  {
    JoinTextConcat(run, [part]);
    assert part.text + [] == part.text;
  }

  /** Parsed inline content is flagged to hold a link or code exactly when its tree does. */
  lemma {:induction false} MarksOfInline(
    nodes: seq<Node>, ctx: Context, depth: nat, trim: bool, linkify: bool, readers: Readers)
    requires !ctx.bounded
    ensures var c := ParseInline(nodes, ctx, depth, trim, linkify, readers).0;
            && (c.containsAnchor <==> HoldsLink(nodes, linkify, readers))
            && (c.containsCode <==> HoldsCode(nodes, linkify, readers)) && Tame(c)
    decreases nodes, 1
  {
    hide ExpandNodes, LinkifyRuns, Linking, HoldsCode, IsLinked, NormalizeText, NormalizeClassic, NormalizeRich;
    var parts := ExpandNodes(nodes, ctx, depth, linkify, readers).0;
    MarksOfNodes(nodes, ctx, depth, "", linkify, readers);
    JoinNone();
    if linkify {
      LinkedParts(parts, [], readers);
    } else {
      UnlinkedParts(parts, "", readers);
    }
    var joined := if linkify then LinkifyRuns(parts, [], readers) else parts;
    FlagsOfJoined(joined, trim);
  }

  lemma FlagsOfJoined(parts: seq<Inline>, trim: bool)
    requires AllTame(parts)
    ensures var c := Combine(parts, trim);
            (c.containsAnchor <==> SomeAnchor(parts)) && (c.containsCode <==> SomeCode(parts)) && Tame(c)
  {
    hide NormalizeText, NormalizeClassic, NormalizeRich, MentionsLink;
  }

  lemma {:induction false} MarksOfNodes(
    nodes: seq<Node>, ctx: Context, depth: nat, run: string, linkify: bool, readers: Readers)
    requires !ctx.bounded
    ensures var parts := ExpandNodes(nodes, ctx, depth, linkify, readers).0;
            && AllTame(parts) && (SomeCode(parts) <==> HoldsCode(nodes, linkify, readers))
            && PartsLinking(parts, run, linkify, readers) == Linking(nodes, run, linkify, readers)
    decreases nodes, 0
  {
    hide NodeLinking, NodeHoldsCode, SomeCode, SomeAnchor, AllTame, PartsLinking, IsLinked;
    if nodes == [] {
      NothingMarked();
      NoPartsLinked(run, linkify, readers);
    } else {
      var first := ExpandInlineNode(nodes[0], ctx, depth, linkify, readers).0;
      var rest := ExpandNodes(nodes[1..], ctx, depth, linkify, readers).0;
      var next := NodeLinking(nodes[0], run, linkify, readers).1;
      MarksOfNode(nodes[0], ctx, depth, run, linkify, readers);
      MarksOfNodes(nodes[1..], ctx, depth, next, linkify, readers);
      MarkedConcat(first, rest);
      PartsLinkingConcat(first, rest, run, linkify, readers);
    }
  }

  lemma NoPartsLinked(run: string, linkify: bool, readers: Readers)
    ensures PartsLinking([], run, linkify, readers) == (false, run)
  {
  }

  lemma OnePartLinking(p: Inline, run: string, linkify: bool, readers: Readers)
    ensures PartsLinking([p], run, linkify, readers) ==
            if p.plain then (false, run + p.text)
            else ((linkify && IsLinked(run, readers)) || p.containsAnchor, "")
    ensures SomeCode([p]) <==> p.containsCode
    ensures AllTame([p]) <==> Tame(p)
  {
    hide IsLinked;
    assert [p][1..] == [];
    assert p in [p];
  }

  lemma {:induction false} MarksOfNode(
    node: Node, ctx: Context, depth: nat, run: string, linkify: bool, readers: Readers)
    requires !ctx.bounded
    ensures var parts := ExpandInlineNode(node, ctx, depth, linkify, readers).0;
            && AllTame(parts) && (SomeCode(parts) <==> NodeHoldsCode(node, linkify, readers))
            && PartsLinking(parts, run, linkify, readers) == NodeLinking(node, run, linkify, readers)
    decreases node, 2
  {
    hide SomeCode, AllTame, PartsLinking, IsLinked, HoldsLink, HasInlineText, CleanText;
    if node.Element? && IsTransparent(node.name) {
      MarksOfNodes(node.children, ctx, depth + 1, run, linkify, readers);
    } else {
      OnePartLinking(ParseInlineNode(node, ctx, depth, linkify, readers).0, run, linkify, readers);
      assert run + "" == run;
      if node.Element? {
        MarksOfElement(node, ctx, depth, linkify, readers);
      }
    }
  }

  lemma {:induction false} MarksOfElement(node: Node, ctx: Context, depth: nat, linkify: bool, readers: Readers)
    requires !ctx.bounded && node.Element? && !IsTransparent(node.name)
    ensures var p, name := ParseElement(node, ctx, depth, linkify, readers).0, node.name;
            && Tame(p) && (p.containsCode <==> NodeHoldsCode(node, linkify, readers))
            && if IsDropped(name) || (!name.Br? && !name.Table? && !HasInlineText(node.children)) then
              p == EmptyInline()
               else
                 !p.plain && p.containsAnchor ==
                 (!name.Br? && !name.Table?
                  && (IsAnchor(node, readers) || HoldsLink(node.children, LinkifiesChildren(name, linkify), readers)))
    decreases node, 1
  {
    hide ParseInline, CollectText, RenderElement, HasInlineText, HoldsLink, HoldsCode, IsAnchor;
    var name := node.name;
    if !IsDropped(name) && !name.Br? && !name.Table? {
      var below := LinkifiesChildren(name, linkify);
      MarksOfInline(node.children, ctx, depth + 1, false, below, readers);
      ParseInlineInk(node.children, ctx, depth + 1, false, below, readers);
      MarksOfRendered(node, ParseInline(node.children, ctx, depth + 1, false, below, readers).0, readers);
    }
  }

  lemma MarksOfRendered(node: Node, child: Inline, readers: Readers)
    requires node.Element? && !IsTransparent(node.name) && !IsDropped(node.name) && !node.name.Br? && !node.name.Table?
    requires Tame(child)
    ensures var p := RenderElement(node, child, readers);
            && !p.plain && (p.containsAnchor <==> IsAnchor(node, readers) || child.containsAnchor)
            && (p.containsCode <==>
                if node.name.Code? then !child.containsAnchor
                else (IsAnchor(node, readers) ==> child.containsAnchor) && child.containsCode)
  {
    hide ListItemPrefix, TextTokens, Wrap;
  }
}
