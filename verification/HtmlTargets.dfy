/**
 * Where links point. `Links` reads the links off a markup, each with its
 * destination and the characters it shows; `ContentTargets` reads them off the
 * tree. The two agree for all inline content, in both forms.
 */
module HtmlTargets {
  import opened HtmlTokens
  import opened HtmlNormalize
  import opened HtmlLinks
  import opened HtmlDom
  import opened HtmlInline
  import opened HtmlInk
  import opened HtmlMarks

  /** A link: its destination, and the visible characters it shows. */
  datatype Target = Target(href: string, shown: string)

  // ---- Links of a markup ----------------------------------------------------------------------

  function HrefOf(attrs: seq<Attr>): string {
    if attrs == [] then []
    else if attrs[0].Valued? && attrs[0].name == Href then attrs[0].value
    else HrefOf(attrs[1..])
  }

  // What one token does to the link that is open: the link it closes, if any, and the one open then.
  function ReadToken(t: Token, open: Option<Target>): (seq<Target>, Option<Target>) {
    match t
    case Open(k, attrs) => ([], if k == HtmlTokens.A then Some(Target(HrefOf(attrs), [])) else open)
    case Close(k) => if k == HtmlTokens.A && open.Some? then ([open.value], None) else ([], open)
    case Ch(c) => ([], Showing(open, if IsSpace(c) then [] else [c]))
    case _ => ([], open)
  }

  // The links closed while reading on from the link that is open, and the one open at the end.
  function ReadLinks(ts: seq<Token>, open: Option<Target>): (seq<Target>, Option<Target>) {
    if ts == [] then ([], open)
    else
      var (first, next) := ReadToken(ts[0], open);
      var (later, end) := ReadLinks(ts[1..], next);
      (first + later, end)
  }

  // More characters shown by the open link.
  function Showing(open: Option<Target>, text: string): Option<Target> {
    if open.None? then None else Some(open.value.(shown := open.value.shown + text))
  }

  /** The links of a markup in order. */
  function Links(ts: seq<Token>): seq<Target> {
    ReadLinks(ts, None).0
  }

  lemma {:induction false} ReadLinksConcat(a: seq<Token>, b: seq<Token>, open: Option<Target>)
    ensures var (first, next) := ReadLinks(a, open);
            var (later, end) := ReadLinks(b, next);
            ReadLinks(a + b, open) == (first + later, end)
  {
    hide ReadToken;
    if a == [] {
      assert a + b == b;
      var later := ReadLinks(b, open).0;
      assert [] + later == later;
    } else {
      assert (a + b)[0] == a[0] && (a + b)[1..] == a[1..] + b;
      var (own, next) := ReadToken(a[0], open);
      ReadLinksConcat(a[1..], b, next);
      var first, later := ReadLinks(a[1..], next).0, ReadLinks(b, ReadLinks(a, open).1).0;
      assert own + (first + later) == own + first + later;
    }
  }

  lemma BlankChangesNothing(t: Token, rest: seq<Token>, open: Option<Target>)
    requires t.Br? || (t.Ch? && IsSpace(t.c))
    ensures ReadLinks([t] + rest, open) == ReadLinks(rest, open)
  {
    assert ([t] + rest)[1..] == rest;
    assert open.Some? ==> open.value.shown + [] == open.value.shown;
    var later := ReadLinks(rest, open).0;
    assert [] + later == later;
  }

  // Breaks and white space change no link.
  lemma {:induction false} LinksOfMarks(ts: seq<Token>, open: Option<Target>)
    ensures ReadLinks(ts, open) == ReadLinks(Marks(ts), open)
  {
    if ts != [] {
      var t, rest := ts[0], ts[1..];
      assert ts == [t] + rest;
      if t.Br? || (t.Ch? && IsSpace(t.c)) {
        BlankChangesNothing(t, rest, open);
        LinksOfMarks(rest, open);
        assert [] + Marks(rest) == Marks(rest);
      } else {
        ReadLinksConcat([t], rest, open);
        ReadLinksConcat([t], Marks(rest), open);
        LinksOfMarks(rest, ReadLinks([t], open).1);
      }
    }
  }

  lemma AlikeLinks(a: seq<Token>, b: seq<Token>)
    requires Alike(a, b)
    ensures Links(a) == Links(b)
  {
    LinksOfMarks(a, None);
    LinksOfMarks(b, None);
  }

  predicate OneLinkAtMost(stack: seq<Kind>) {
    stack == [] || (OneLinkAtMost(stack[..|stack| - 1])
                    && (stack[|stack| - 1] == HtmlTokens.A ==> HtmlTokens.A !in stack[..|stack| - 1]))
  }

  // A link is open exactly while its element is.
  lemma {:induction false} OpenWithElement(ts: seq<Token>, stack: seq<Kind>, open: Option<Target>)
    requires Scan(ts, stack).Stack? && OneLinkAtMost(stack) && (open.Some? <==> HtmlTokens.A in stack)
    ensures ReadLinks(ts, open).1.Some? <==> HtmlTokens.A in Scan(ts, stack).open
  {
    if ts != [] {
      match ts[0]
      case Open(k, attrs) =>
        assert (stack + [k])[..|stack|] == stack;
        OpenWithElement(ts[1..], stack + [k], if k == HtmlTokens.A then Some(Target(HrefOf(attrs), [])) else open);
      case Close(k) =>
        assert stack == stack[..|stack| - 1] + [k];
        OpenWithElement(ts[1..], stack[..|stack| - 1], if k == HtmlTokens.A then None else open);
      case Ch(c) => OpenWithElement(ts[1..], stack, Showing(open, if IsSpace(c) then [] else [c]));
      case _ => OpenWithElement(ts[1..], stack, open);
    }
  }

  lemma ClosedAtEnd(ts: seq<Token>)
    requires WellFormed(ts)
    ensures ReadLinks(ts, None) == (Links(ts), None)
  {
    OpenWithElement(ts, [], None);
  }

  lemma LinksOfBoth(a: seq<Token>, b: seq<Token>)
    requires WellFormed(a)
    ensures Links(a + b) == Links(a) + Links(b)
  {
    ReadLinksConcat(a, b, None);
    ClosedAtEnd(a);
  }

  lemma TokenInside(t: Token, open: Option<Target>)
    requires t.Open? || t.Close? ==> t.kind != HtmlTokens.A
    ensures ReadToken(t, open) == ([], Showing(open, Visible([t])))
  {
    assert [t][1..] == [];
    assert Visible([t]) == if t.Ch? && !IsSpace(t.c) then [t.c] else [];
    assert open.Some? ==> open.value.shown + [] == open.value.shown;
  }

  lemma ShowingTwice(open: Option<Target>, a: string, b: string)
    ensures Showing(Showing(open, a), b) == Showing(open, a + b)
  {
    assert open.Some? ==> open.value.shown + a + b == open.value.shown + (a + b);
  }

  // Markup without links only adds to what an open link shows.
  lemma {:induction false} ReadInside(ts: seq<Token>, stack: seq<Kind>, open: Option<Target>)
    requires Scan(ts, stack).Stack? && !Opens(ts, HtmlTokens.A) && HtmlTokens.A !in stack
    ensures ReadLinks(ts, open) == ([], Showing(open, Visible(ts)))
  {
    hide ReadToken, Visible, MayOpen;
    if ts == [] {
      NothingInside(open);
    } else {
      var t, rest := ts[0], ts[1..];
      assert ts == [t] + rest;
      OpensConcat([t], rest);
      if t.Open? || t.Close? {
        assert [t][0] == t;
        assert t.Open? ==> Opens([t], t.kind);
      }
      TokenInside(t, open);
      ReadInside(rest, if t.Open? then stack + [t.kind] else if t.Close? then stack[..|stack| - 1] else stack,
                 Showing(open, Visible([t])));
      ShowingTwice(open, Visible([t]), Visible(rest));
      VisibleConcat([t], rest);
      var none: seq<Target> := [];
      assert none + none == none;
    }
  }

  lemma NothingInside(open: Option<Target>)
    ensures Showing(open, Visible([])) == open
  {
    assert open.Some? ==> open.value.shown + [] == open.value.shown;
  }

  lemma NoLinks(ts: seq<Token>)
    requires WellFormed(ts) && !Opens(ts, HtmlTokens.A)
    ensures Links(ts) == []
  {
    ReadInside(ts, [], None);
  }

  lemma TextHasNoLinks(ts: seq<Token>)
    requires OnlyText(ts)
    ensures Links(ts) == []
  {
    ScanText(ts, []);
    NoLinks(ts);
  }

  // An element that is no link holds the links of its content.
  lemma LinksWrapped(k: Kind, attrs: seq<Attr>, ts: seq<Token>)
    requires WellFormed(ts) && k != HtmlTokens.A
    ensures Links(Wrap(k, attrs, ts)) == Links(ts)
  {
    ReadLinksConcat([Open(k, attrs)] + ts, [Close(k)], None);
    ReadLinksConcat([Open(k, attrs)], ts, None);
    ClosedAtEnd(ts);
    assert ReadLinks([Open(k, attrs)], None) == ([], None) && ReadLinks([Close(k)], None) == ([], None);
  }

  // A link around content without links points to its href and shows the content.
  lemma LinkAround(attrs: seq<Attr>, ts: seq<Token>)
    requires WellFormed(ts) && !Opens(ts, HtmlTokens.A)
    ensures Links(Wrap(HtmlTokens.A, attrs, ts)) == [Target(HrefOf(attrs), Visible(ts))]
  {
    var open := Some(Target(HrefOf(attrs), []));
    ReadLinksConcat([Open(HtmlTokens.A, attrs)] + ts, [Close(HtmlTokens.A)], None);
    ReadLinksConcat([Open(HtmlTokens.A, attrs)], ts, None);
    ReadInside(ts, [], open);
    assert ReadLinks([Open(HtmlTokens.A, attrs)], None) == ([], open);
    assert open.value.shown + Visible(ts) == Visible(ts);
    var full := Some(Target(HrefOf(attrs), Visible(ts)));
    assert [Close(HtmlTokens.A)][1..] == [];
    assert ReadLinks([Close(HtmlTokens.A)], full) == ([full.value] + [], None);
  }

  // ---- Links of a tree -----------------------------------------------------------------------

  // The bare URLs in the spans of a run of text: what each is trimmed to, and the destination made for that.
  function BareTargets(text: string, spans: seq<Span>, readers: Readers): seq<Target>
    requires forall s | s in spans :: s.start < s.end <= |text|
  {
    if spans == [] then []
    else
      assert spans[0] in spans;
      var candidate := LinkCandidate(text[spans[0].start..spans[0].end]);
      (if candidate.Some? && readers.synthesizedHref(candidate.value).Some? then
         [Target(readers.synthesizedHref(candidate.value).value, NonSpace(candidate.value))] else [])
        + BareTargets(text, spans[1..], readers)
  }

  lemma {:induction false} SpansInText(spans: seq<Span>, from: nat, length: nat)
    requires InOrder(spans, from, length)
    ensures forall s | s in spans :: s.start < s.end <= length
  {
    if spans != [] {
      SpansInText(spans[1..], spans[0].end, length);
      assert spans == [spans[0]] + spans[1..];
    }
  }

  // The links of a whole run of text: bare URLs, in the rich form only.
  function RunTargets(run: string, linkify: bool, rich: bool, readers: Readers): seq<Target> {
    if !linkify || !rich then []
    else
      MatchesInOrder(run, 0);
      SpansInText(Matches(run, 0), 0, |run|);
      BareTargets(run, Matches(run, 0), readers)
  }

  // The links of sibling nodes behind a run of text, and the text that runs on behind them.
  function NodesTargets(nodes: seq<Node>, run: string, linkify: bool, rich: bool, readers: Readers):
    (seq<Target>, string)
    decreases nodes, 0
  {
    if nodes == [] then ([], run)
    else
      var (first, next) := NodeTargets(nodes[0], run, linkify, rich, readers);
      var (later, end) := NodesTargets(nodes[1..], next, linkify, rich, readers);
      (first + later, end)
  }

  function NodeTargets(node: Node, run: string, linkify: bool, rich: bool, readers: Readers): (seq<Target>, string)
    decreases node, 2
  {
    if node.Text? then ([], run + CleanText(node.data))
    else if node.NonContent? || IsDropped(node.name) then ([], run)
    else if IsTransparent(node.name) then NodesTargets(node.children, run, linkify, rich, readers)
    else if node.name.Br? || node.name.Table? then (RunTargets(run, linkify, rich, readers), "")
    else if !HasInlineText(node.children) then ([], run)
    else (RunTargets(run, linkify, rich, readers) + ElementTargets(node, linkify, rich, readers), "")
  }

  // An anchor with a safe href links its whole content there, unless that holds a link already.
  function ElementTargets(node: Node, linkify: bool, rich: bool, readers: Readers): seq<Target>
    requires node.Element?
    decreases node, 1
  {
    var below := linkify && !node.name.A? && !node.name.Pre? && !node.name.Code?;
    if IsAnchor(node, readers) && !HoldsLink(node.children, below, readers) then
      [Target(readers.safeHref(node.attrs.href.value).value, InlineInk(node.children, readers, true))]
    else ContentTargets(node.children, below, rich, readers)
  }

  /** The links of inline content, in order. */
  function ContentTargets(nodes: seq<Node>, linkify: bool, rich: bool, readers: Readers): seq<Target>
    decreases nodes, 1
  {
    var (targets, end) := NodesTargets(nodes, "", linkify, rich, readers);
    targets + RunTargets(end, linkify, rich, readers)
  }

  // ---- The two agree ---------------------------------------------------------------------------

  function MarkupOf(c: Inline, rich: bool): seq<Token> {
    if rich then c.rich else c.classic
  }

  function JoinedMarkup(parts: seq<Inline>, rich: bool): seq<Token> {
    if parts == [] then [] else MarkupOf(parts[0], rich) + JoinedMarkup(parts[1..], rich)
  }

  lemma {:induction false} JoinedIs(parts: seq<Inline>)
    ensures JoinedMarkup(parts, true) == JoinRich(parts) && JoinedMarkup(parts, false) == JoinClassic(parts)
  {
    if parts != [] {
      JoinedIs(parts[1..]);
    }
  }

  lemma {:induction false} JoinedConcat(a: seq<Inline>, b: seq<Inline>, rich: bool)
    ensures JoinedMarkup(a + b, rich) == JoinedMarkup(a, rich) + JoinedMarkup(b, rich)
  {
    if a == [] {
      assert a + b == b;
    } else {
      assert (a + b)[0] == a[0] && (a + b)[1..] == a[1..] + b;
      JoinedConcat(a[1..], b, rich);
      var own, x, y := MarkupOf(a[0], rich), JoinedMarkup(a[1..], rich), JoinedMarkup(b, rich);
      assert own + (x + y) == own + x + y;
    }
  }

  // The same reading of parsed parts.
  function PartsTargets(parts: seq<Inline>, run: string, linkify: bool, rich: bool, readers: Readers):
    (seq<Target>, string)
  {
    if parts == [] then ([], run)
    else if parts[0].plain then PartsTargets(parts[1..], run + parts[0].text, linkify, rich, readers)
    else
      var (later, end) := PartsTargets(parts[1..], "", linkify, rich, readers);
      (RunTargets(run, linkify, rich, readers) + Links(MarkupOf(parts[0], rich)) + later, end)
  }

  lemma {:induction false} PartsTargetsConcat(
    a: seq<Inline>, b: seq<Inline>, run: string, linkify: bool, rich: bool, readers: Readers)
    ensures var (first, next) := PartsTargets(a, run, linkify, rich, readers);
            var (later, end) := PartsTargets(b, next, linkify, rich, readers);
            PartsTargets(a + b, run, linkify, rich, readers) == (first + later, end)
  {
    hide RunTargets, Links, MarkupOf;
    if a == [] {
      assert a + b == b;
      var later := PartsTargets(b, run, linkify, rich, readers).0;
      assert [] + later == later;
    } else {
      assert (a + b)[0] == a[0] && (a + b)[1..] == a[1..] + b;
      var next := if a[0].plain then run + a[0].text else "";
      PartsTargetsConcat(a[1..], b, next, linkify, rich, readers);
      var own := RunTargets(run, linkify, rich, readers) + Links(MarkupOf(a[0], rich));
      var (first, open) := PartsTargets(a[1..], next, linkify, rich, readers);
      var later := PartsTargets(b, open, linkify, rich, readers).0;
      assert own + first + later == own + (first + later);
    }
  }

  lemma SoundPart(c: Inline, rich: bool)
    requires Sound(c)
    ensures WellFormed(MarkupOf(c, rich)) && (c.plain ==> Links(MarkupOf(c, rich)) == [])
    ensures Visible(MarkupOf(c, rich)) == NonSpace(c.text)
    ensures !c.containsAnchor ==> !Opens(MarkupOf(c, rich), HtmlTokens.A)
  {
    if c.plain {
      TextHasNoLinks(MarkupOf(c, rich));
    }
  }

  lemma {:induction false} LinksOfJoined(parts: seq<Inline>, run: string, rich: bool, readers: Readers)
    requires AllSound(parts)
    ensures Links(JoinedMarkup(parts, rich)) == PartsTargets(parts, run, false, rich, readers).0
  {
    hide SoundMarkup, Sound, MarkupOf, Links;
    if parts == [] {
      NoLinksInNothing();
    } else {
      assert Sound(parts[0]);
      SoundPart(parts[0], rich);
      LinksOfJoined(parts[1..], if parts[0].plain then run + parts[0].text else "", rich, readers);
      LinksOfBoth(MarkupOf(parts[0], rich), JoinedMarkup(parts[1..], rich));
    }
  }

  lemma NoLinksInNothing()
    ensures Links([]) == []
  {
  }

  // ---- Bare URLs ----------------------------------------------------------------------------------

  lemma LinkTokensTarget(link: (string, string))
    ensures Links(LinkTokens(link)) == [Target(link.1, NonSpace(link.0))] && WellFormed(LinkTokens(link))
  {
    ScanText(TextTokens(link.0), []);
    LinkAround([Valued(Href, link.1)], TextTokens(link.0));
    VisibleOfText(link.0);
    ShowsLink(link);
  }

  lemma LinkAmid(before: string, link: (string, string), rest: seq<Token>)
    ensures Links(TextTokens(before) + LinkTokens(link) + rest) == [Target(link.1, NonSpace(link.0))] + Links(rest)
  {
    hide TextTokens, LinkTokens, Links;
    PlainTextLinks(before);
    LinkTokensTarget(link);
    LinksOfBoth(TextTokens(before), LinkTokens(link) + rest);
    LinksOfBoth(LinkTokens(link), rest);
    assert TextTokens(before) + LinkTokens(link) + rest == TextTokens(before) + (LinkTokens(link) + rest);
  }

  lemma {:induction false} LinkFromTargets(text: string, spans: seq<Span>, cursor: nat, readers: Readers)
    requires InOrder(spans, cursor, |text|)
    ensures forall s | s in spans :: s.start < s.end <= |text|
    ensures Links(LinkFrom(text, spans, cursor, readers.synthesizedHref)) == BareTargets(text, spans, readers)
    decreases |spans|
  {
    hide TextTokens, LinkTokens, LinkCandidate, Links;
    SpansInText(spans, cursor, |text|);
    if spans == [] {
      PlainTextLinks(text[cursor..]);
    } else {
      var link := LinkAt(text, spans[0], readers.synthesizedHref);
      if link.None? {
        InOrderFromEarlier(spans[1..], spans[0].end, cursor, |text|);
        LinkFromTargets(text, spans[1..], cursor, readers);
      } else {
        var next := spans[0].start + |link.value.0|;
        InOrderFromEarlier(spans[1..], spans[0].end, next, |text|);
        LinkFromTargets(text, spans[1..], next, readers);
        var before, rest := text[cursor..spans[0].start], LinkFrom(text, spans[1..], next, readers.synthesizedHref);
        LinkAmid(before, link.value, rest);
      }
    }
  }

  lemma PlainTextLinks(text: string)
    ensures Links(TextTokens(text)) == [] && WellFormed(TextTokens(text))
  {
    ScanText(TextTokens(text), []);
    TextHasNoLinks(TextTokens(text));
  }

  lemma {:induction false} WithoutSomeLink(text: string, spans: seq<Span>, from: nat, readers: Readers)
    requires InOrder(spans, from, |text|) && !SomeLink(text, spans, from, readers.synthesizedHref)
    ensures forall s | s in spans :: s.start < s.end <= |text|
    ensures BareTargets(text, spans, readers) == []
    decreases |spans|
  {
    SpansInText(spans, from, |text|);
    if spans != [] {
      WithoutSomeLink(text, spans[1..], spans[0].end, readers);
    }
  }

  lemma LinkedTextTargets(text: string, rich: bool, readers: Readers)
    ensures Links(MarkupOf(LinkedText(text, readers), rich)) == RunTargets(text, true, rich, readers)
  {
    hide Links, BareTargets;
    PlainTextLinks(text);
    MatchesInOrder(text, 0);
    if SomeLink(text, Matches(text, 0), 0, readers.synthesizedHref) {
      LinkFromTargets(text, Matches(text, 0), 0, readers);
    } else {
      WithoutSomeLink(text, Matches(text, 0), 0, readers);
    }
  }

  // Linking the runs of text gives the links of `PartsTargets`.
  lemma LinksAmid(before: seq<Inline>, part: Inline, rest: seq<Inline>, rich: bool)
    requires WellFormed(JoinedMarkup(before, rich)) && WellFormed(MarkupOf(part, rich))
    ensures Links(JoinedMarkup(before + [part] + rest, rich)) ==
            Links(JoinedMarkup(before, rich)) + Links(MarkupOf(part, rich)) + Links(JoinedMarkup(rest, rich))
  {
    hide Links, MarkupOf, JoinedMarkup;
    JoinedConcat(before + [part], rest, rich);
    JoinedConcat(before, [part], rich);
    OneJoined(part, rich);
    var a, b, c := JoinedMarkup(before, rich), MarkupOf(part, rich), JoinedMarkup(rest, rich);
    LinksOfBoth(a, b + c);
    LinksOfBoth(b, c);
    assert a + b + c == a + (b + c);
    assert Links(a) + (Links(b) + Links(c)) == Links(a) + Links(b) + Links(c);
  }

  lemma {:induction false} LinksOfLinked(parts: seq<Inline>, run: seq<Inline>, rich: bool, readers: Readers)
    requires AllSound(parts)
    ensures var (targets, end) := PartsTargets(parts, JoinText(run), true, rich, readers);
            Links(JoinedMarkup(LinkifyRuns(parts, run, readers), rich))
              == targets + RunTargets(end, true, rich, readers)
    decreases |parts|
  {
    hide SoundMarkup, Sound, MarkupOf, Links, RunTargets, LinkedText, JoinText;
    var text := JoinText(run);
    var flushed := if run == [] then [] else [LinkedText(text, readers)];
    FlushedTargets(run, rich, readers);
    if parts == [] {
      assert [] + RunTargets(text, true, rich, readers) == RunTargets(text, true, rich, readers);
    } else {
      var first := parts[0];
      assert Sound(first);
      SoundPart(first, rich);
      if first.plain {
        JoinOne(run, first);
        LinksOfLinked(parts[1..], run + [first], rich, readers);
      } else {
        JoinNone();
        LinksOfLinked(parts[1..], [], rich, readers);
        var rest := LinkifyRuns(parts[1..], [], readers);
        LinksAmid(flushed, first, rest, rich);
        var (later, end) := PartsTargets(parts[1..], "", true, rich, readers);
        var x := Links(JoinedMarkup(flushed, rich)) + Links(MarkupOf(first, rich));
        var z := RunTargets(end, true, rich, readers);
        assert x + (later + z) == x + later + z;
      }
    }
  }

  lemma OneJoined(c: Inline, rich: bool)
    ensures JoinedMarkup([c], rich) == MarkupOf(c, rich)
  {
    assert [c][1..] == [];
    assert MarkupOf(c, rich) + [] == MarkupOf(c, rich);
  }

  lemma FlushedTargets(run: seq<Inline>, rich: bool, readers: Readers)
    ensures var flushed := if run == [] then [] else [LinkedText(JoinText(run), readers)];
            WellFormed(JoinedMarkup(flushed, rich))
              && Links(JoinedMarkup(flushed, rich)) == RunTargets(JoinText(run), true, rich, readers)
  {
    hide LinkedText, Links, MarkupOf, SoundMarkup;
    if run == [] {
      NoLinksInNothing();
      NoTargetsInNothing(rich, readers);
    } else {
      OneJoined(LinkedText(JoinText(run), readers), rich);
      LinkedTextSound(JoinText(run), readers);
      SoundPart(LinkedText(JoinText(run), readers), rich);
      LinkedTextTargets(JoinText(run), rich, readers);
    }
  }

  lemma NoTargetsInNothing(rich: bool, readers: Readers)
    ensures RunTargets(JoinText([]), true, rich, readers) == []
  {
  }

  // ---- Inline content -------------------------------------------------------------------------------

  /**
   * For every list of nodes: the links of both markups, with where they point
   * and what they show, are those of the tree in order.
   */
  lemma {:induction false} TargetsOfInline(
    nodes: seq<Node>, ctx: Context, depth: nat, trim: bool, linkify: bool, rich: bool, readers: Readers)
    requires !ctx.bounded
    ensures var c := ParseInline(nodes, ctx, depth, trim, linkify, readers).0;
            Links(MarkupOf(c, rich)) == if c.text == [] then [] else ContentTargets(nodes, linkify, rich, readers)
    decreases nodes, 1
  {
    hide ExpandNodes, LinkifyRuns, NodesTargets, RunTargets, NormalizeText, NormalizeClassic, NormalizeRich, Links,
         Sound,
         Alike;
    var parts := ExpandNodes(nodes, ctx, depth, linkify, readers).0;
    ExpandNodesSound(nodes, ctx, depth, linkify, readers);
    TargetsOfNodes(nodes, ctx, depth, "", linkify, rich, readers);
    NoLinksInNothing();
    if linkify {
      JoinNone();
      LinksOfLinked(parts, [], rich, readers);
    } else {
      LinksOfJoined(parts, "", rich, readers);
      UnlinkedRun(PartsTargets(parts, "", false, rich, readers).1, rich, readers);
    }
    CombinedLinks(if linkify then LinkifyRuns(parts, [], readers) else parts, trim, rich);
  }

  lemma UnlinkedRun(run: string, rich: bool, readers: Readers)
    ensures RunTargets(run, false, rich, readers) == []
  {
  }

  lemma CombinedLinks(parts: seq<Inline>, trim: bool, rich: bool)
    ensures var c := Combine(parts, trim);
            Links(MarkupOf(c, rich)) == if c.text == [] then [] else Links(JoinedMarkup(parts, rich))
  {
    hide NormalizeText, NormalizeClassic, NormalizeRich, Links, Alike, MentionsLink;
    NoLinksInNothing();
    JoinedIs(parts);
    NormalizeClassicAlike(JoinClassic(parts), trim);
    NormalizeRichAlike(JoinRich(parts), trim);
    AlikeLinks(JoinClassic(parts), NormalizeClassic(JoinClassic(parts), trim));
    AlikeLinks(JoinRich(parts), NormalizeRich(JoinRich(parts), trim));
  }

  lemma {:induction false} TargetsOfNodes(
    nodes: seq<Node>, ctx: Context, depth: nat, run: string, linkify: bool, rich: bool, readers: Readers)
    requires !ctx.bounded
    ensures PartsTargets(ExpandNodes(nodes, ctx, depth, linkify, readers).0, run, linkify, rich, readers) ==
            NodesTargets(nodes, run, linkify, rich, readers)
    decreases nodes, 0
  {
    hide NodeTargets, PartsTargets, RunTargets, ExpandInlineNode;
    if nodes == [] {
      NoPartsTargets(run, linkify, rich, readers);
    } else {
      var first := ExpandInlineNode(nodes[0], ctx, depth, linkify, readers).0;
      var next := NodeTargets(nodes[0], run, linkify, rich, readers).1;
      TargetsOfNode(nodes[0], ctx, depth, run, linkify, rich, readers);
      TargetsOfNodes(nodes[1..], ctx, depth, next, linkify, rich, readers);
      PartsTargetsConcat(first, ExpandNodes(nodes[1..], ctx, depth, linkify, readers).0, run, linkify, rich, readers);
    }
  }

  lemma NoPartsTargets(run: string, linkify: bool, rich: bool, readers: Readers)
    ensures PartsTargets([], run, linkify, rich, readers) == ([], run)
  {
  }

  lemma OnePartTargets(p: Inline, run: string, linkify: bool, rich: bool, readers: Readers)
    ensures PartsTargets([p], run, linkify, rich, readers) ==
            if p.plain then ([], run + p.text)
            else (RunTargets(run, linkify, rich, readers) + Links(MarkupOf(p, rich)), "")
  {
    hide RunTargets, Links, MarkupOf;
    assert [p][1..] == [];
    var own := RunTargets(run, linkify, rich, readers) + Links(MarkupOf(p, rich));
    assert own + [] == own;
  }

  lemma {:induction false} TargetsOfNode(
    node: Node, ctx: Context, depth: nat, run: string, linkify: bool, rich: bool, readers: Readers)
    requires !ctx.bounded
    ensures PartsTargets(ExpandInlineNode(node, ctx, depth, linkify, readers).0, run, linkify, rich, readers) ==
            NodeTargets(node, run, linkify, rich, readers)
    decreases node, 2
  {
    hide PartsTargets, RunTargets, Links, MarkupOf, CleanText, HasInlineText, ElementTargets;
    if node.Element? && IsTransparent(node.name) {
      TargetsOfNodes(node.children, ctx, depth + 1, run, linkify, rich, readers);
    } else {
      OnePartTargets(ParseInlineNode(node, ctx, depth, linkify, readers).0, run, linkify, rich, readers);
      assert run + "" == run;
      if node.Element? {
        MarksOfElement(node, ctx, depth, linkify, readers);
        TargetsOfElement(node, ctx, depth, linkify, rich, readers);
        var flushed := RunTargets(run, linkify, rich, readers);
        assert flushed + [] == flushed;
      }
    }
  }

  lemma {:induction false} TargetsOfElement(
    node: Node, ctx: Context, depth: nat, linkify: bool, rich: bool, readers: Readers)
    requires !ctx.bounded && node.Element? && !IsTransparent(node.name)
    ensures var p, name := ParseElement(node, ctx, depth, linkify, readers).0, node.name;
            Links(MarkupOf(p, rich)) ==
            if IsDropped(name) || name.Br? || name.Table? || !HasInlineText(node.children) then []
            else ElementTargets(node, linkify, rich, readers)
    decreases node, 1
  {
    hide ParseInline, CollectText, RenderElement, HasInlineText, HoldsLink, ContentTargets, Links, Sound, InlineInk;
    var name := node.name;
    PlainTextLinks("");
    BreakHasNoLinks();
    if name.Table? {
      PlainTextLinks(CollectText([node], ctx, depth + 1, false).0);
    } else if !IsDropped(name) && !name.Br? {
      var below := LinkifiesChildren(name, linkify);
      var child := ParseInline(node.children, ctx, depth + 1, false, below, readers).0;
      MarksOfInline(node.children, ctx, depth + 1, false, below, readers);
      ParseInlineInk(node.children, ctx, depth + 1, false, below, readers);
      ParseInlineSound(node.children, ctx, depth + 1, false, below, readers);
      TargetsOfInline(node.children, ctx, depth + 1, false, below, rich, readers);
      TargetsOfRendered(node, child, rich, readers);
    }
  }

  lemma BreakHasNoLinks()
    ensures Links([Token.Br]) == [] && Links(TextTokens("\n")) == []
  {
    PlainTextLinks("\n");
    assert [Token.Br][1..] == [];
  }

  // Framed by text and breaks.
  lemma FramedLinks(before: seq<Token>, ts: seq<Token>, after: seq<Token>)
    requires WellFormed(before) && WellFormed(ts) && Links(before) == [] && Links(after) == []
    ensures Links(before + ts + after) == Links(ts)
  {
    hide Links;
    WellFormedConcat(before, ts);
    LinksOfBoth(before + ts, after);
    LinksOfBoth(before, ts);
    assert [] + Links(ts) + [] == Links(ts);
  }

  lemma OwnLineLinks(prefix: string, child: Inline, rich: bool)
    requires Sound(child)
    ensures Links(MarkupOf(OwnLine(prefix, child), rich)) == Links(MarkupOf(child, rich))
  {
    hide Links, SoundMarkup, Sound;
    SoundPart(child, rich);
    BreakHasNoLinks();
    PlainTextLinks("\n" + prefix);
    PlainTextLinks(prefix);
    PlainTextLinks("\n");
    assert WellFormed([Token.Br]) by { assert [Token.Br][1..] == []; }
    WellFormedConcat([Token.Br], TextTokens(prefix));
    LinksOfBoth([Token.Br], TextTokens(prefix));
    if rich {
      FramedLinks([Token.Br] + TextTokens(prefix), child.rich, [Token.Br]);
    } else {
      FramedLinks(TextTokens("\n" + prefix), child.classic, TextTokens("\n"));
    }
  }

  // A link points to the safe form of its own href and shows its whole content.
  lemma TargetsOfAnchor(rawHref: Option<string>, child: Inline, rich: bool, readers: Readers)
    requires Sound(child)
    ensures Links(MarkupOf(Anchor(rawHref, child, readers), rich)) ==
            if rawHref.Some? && readers.safeHref(rawHref.value).Some? && !child.containsAnchor then
              [Target(readers.safeHref(rawHref.value).value, NonSpace(child.text))]
            else Links(MarkupOf(child, rich))
  {
    hide Links, SoundMarkup, Sound, Wrap;
    var text := TextTokens(child.text);
    SoundPart(child, rich);
    PlainTextLinks(child.text);
    ScanText(text, []);
    VisibleOfText(child.text);
    if rawHref.Some? && readers.safeHref(rawHref.value).Some? && !child.containsAnchor {
      LinkAround([Valued(Href, readers.safeHref(rawHref.value).value)],
                 if child.containsCode then text else MarkupOf(child, rich));
    }
  }

  lemma TargetsOfFormatted(kind: Kind, child: Inline, rich: bool)
    requires Sound(child) && !kind.A?
    ensures Links(MarkupOf(Formatted(kind, child), rich)) == Links(MarkupOf(child, rich))
  {
    hide Links, SoundMarkup, Sound, Wrap;
    var text := TextTokens(child.text);
    SoundPart(child, rich);
    PlainTextLinks(child.text);
    if kind != HtmlTokens.Code {
      LinksWrapped(kind, [], MarkupOf(child, rich));
    } else if !child.containsAnchor {
      LinksWrapped(kind, [], text);
      NoLinks(MarkupOf(child, rich));
    }
  }

  lemma TargetsOfRendered(node: Node, child: Inline, rich: bool, readers: Readers)
    requires node.Element? && Sound(child)
    ensures Links(MarkupOf(RenderElement(node, child, readers), rich)) ==
            if IsAnchor(node, readers) && !child.containsAnchor then
              [Target(readers.safeHref(node.attrs.href.value).value, NonSpace(child.text))]
            else Links(MarkupOf(child, rich))
  {
    hide Links, MarkupOf, SoundMarkup, Sound, OwnLine, Anchor, Formatted, ListItemPrefix;
    match RoleOf(node.name)
    case ListItem => OwnLineLinks(ListItemPrefix(node, readers), child, rich);
    case Definition | Block => OwnLineLinks("", child, rich);
    case Link => TargetsOfAnchor(node.attrs.href, child, rich, readers);
    case Format(kind) => TargetsOfFormatted(kind, child, rich);
    case NoRole =>
  }
}
