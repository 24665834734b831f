/**
 * How inline content looks: which elements are around each visible character,
 * with their attributes. `Faces` reads this off a markup, `ContentFaces` off the
 * tree, and for all inline content the two agree, in both forms.
 */
module HtmlFaces {
  import opened HtmlTokens
  import opened HtmlNormalize
  import opened HtmlLinks
  import opened HtmlDom
  import opened HtmlInline
  import opened HtmlInk
  import opened HtmlMarks
  import opened HtmlTargets

  datatype Tag = Tag(kind: Kind, attrs: seq<Attr>)

  /** A visible character, and the elements around it, outermost first. */
  datatype Face = Face(c: char, path: seq<Tag>)

  // ---- Faces of a markup ----------------------------------------------------------------------

  function FacesFrom(ts: seq<Token>, stack: seq<Tag>): seq<Face> {
    if ts == [] then []
    else FaceOf(ts[0], stack) + FacesFrom(ts[1..], After(ts[0], stack))
  }

  function FaceOf(t: Token, stack: seq<Tag>): seq<Face> {
    if t.Ch? && !IsSpace(t.c) then [Face(t.c, stack)] else []
  }

  // The open elements behind a token.
  function After(t: Token, stack: seq<Tag>): seq<Tag> {
    match t
    case Open(k, attrs) => stack + [Tag(k, attrs)]
    case Close(_) => if stack == [] then [] else stack[..|stack| - 1]
    case _ => stack
  }

  function AfterAll(ts: seq<Token>, stack: seq<Tag>): seq<Tag> {
    if ts == [] then stack else AfterAll(ts[1..], After(ts[0], stack))
  }

  function Kinds(stack: seq<Tag>): (r: seq<Kind>)
    ensures |r| == |stack|
  {
    seq(|stack|, i requires 0 <= i < |stack| => stack[i].kind)
  }

  /** The faces of a markup in order. */
  function Faces(ts: seq<Token>): seq<Face> {
    FacesFrom(ts, [])
  }

  // The same characters inside further elements.
  function Under(outer: seq<Tag>, faces: seq<Face>): (r: seq<Face>)
    ensures |r| == |faces|
  {
    seq(|faces|, i requires 0 <= i < |faces| => Face(faces[i].c, outer + faces[i].path))
  }

  // Characters inside no element.
  function Bare(text: string): (r: seq<Face>)
    ensures |r| == |text|
  {
    seq(|text|, i requires 0 <= i < |text| => Face(text[i], []))
  }

  lemma UnderConcat(outer: seq<Tag>, a: seq<Face>, b: seq<Face>)
    ensures Under(outer, a + b) == Under(outer, a) + Under(outer, b)
    ensures Under(outer, []) == []
  {
  }

  lemma UnderOne(outer: seq<Tag>, f: Face)
    ensures Under(outer, [f]) == [Face(f.c, outer + f.path)]
  {
  }

  lemma UnderNone(faces: seq<Face>)
    ensures Under([], faces) == faces
  {
    forall i | 0 <= i < |faces| ensures Under([], faces)[i] == faces[i] {
      assert [] + faces[i].path == faces[i].path;
    }
  }

  lemma BareConcat(a: string, b: string)
    ensures Bare(a + b) == Bare(a) + Bare(b)
    ensures Bare([]) == []
  {
  }

  // Balanced markup inside `base`, and what follows it.
  lemma {:induction false} FacesThrough(ts: seq<Token>, rest: seq<Token>, base: seq<Tag>, stack: seq<Tag>)
    requires Scan(ts, Kinds(stack)).Stack?
    ensures FacesFrom(ts + rest, base + stack) ==
            Under(base, FacesFrom(ts, stack)) + FacesFrom(rest, base + AfterAll(ts, stack))
    ensures Scan(ts, Kinds(stack)).open == Kinds(AfterAll(ts, stack))
  {
    hide MayOpen, Under, FacesFrom;
    if ts == [] {
      NoFaces(rest, base, stack);
    } else {
      var t, more := ts[0], ts[1..];
      AfterInside(t, base, stack);
      assert Scan(more, Kinds(After(t, stack))) == Scan(ts, Kinds(stack));
      FacesThrough(more, rest, base, After(t, stack));
      OneThrough(ts, rest, base, stack);
    }
  }

  lemma NoFaces(rest: seq<Token>, base: seq<Tag>, stack: seq<Tag>)
    ensures FacesFrom([] + rest, base + stack) == Under(base, FacesFrom([], stack)) + FacesFrom(rest, base + stack)
  {
    assert [] + rest == rest;
    UnderConcat(base, [], []);
    assert [] + FacesFrom(rest, base + stack) == FacesFrom(rest, base + stack);
  }

  lemma AfterInside(t: Token, base: seq<Tag>, stack: seq<Tag>)
    requires t.Close? ==> stack != []
    ensures After(t, base + stack) == base + After(t, stack)
    ensures t.Open? ==> Kinds(After(t, stack)) == Kinds(stack) + [t.kind]
    ensures t.Close? ==> Kinds(After(t, stack)) == Kinds(stack)[..|stack| - 1]
  {
    if t.Close? {
      assert (base + stack)[..|base + stack| - 1] == base + stack[..|stack| - 1];
    }
  }

  lemma FacesNext(t: Token, ts: seq<Token>, stack: seq<Tag>)
    ensures FacesFrom([t] + ts, stack) == FaceOf(t, stack) + FacesFrom(ts, After(t, stack))
    ensures AfterAll([t] + ts, stack) == AfterAll(ts, After(t, stack))
  {
    assert ([t] + ts)[1..] == ts;
  }

  lemma OneThrough(ts: seq<Token>, rest: seq<Token>, base: seq<Tag>, stack: seq<Tag>)
    requires ts != [] && After(ts[0], base + stack) == base + After(ts[0], stack)
    requires var next := After(ts[0], stack);
             FacesFrom(ts[1..] + rest, base + next) ==
             Under(base, FacesFrom(ts[1..], next)) + FacesFrom(rest, base + AfterAll(ts[1..], next))
    ensures FacesFrom(ts + rest, base + stack) ==
            Under(base, FacesFrom(ts, stack)) + FacesFrom(rest, base + AfterAll(ts, stack))
  {
    hide Under, After, FaceOf, FacesFrom, AfterAll;
    var t, more, next := ts[0], ts[1..], After(ts[0], stack);
    FacesNext(t, more + rest, base + stack);
    FacesNext(t, more, stack);
    assert ts + rest == [t] + (more + rest) && ts == [t] + more;
    FaceInside(t, base, stack);
    var x, y := Under(base, FacesFrom(more, next)), FacesFrom(rest, base + AfterAll(more, next));
    UnderConcat(base, FaceOf(t, stack), FacesFrom(more, next));
    assert Under(base, FaceOf(t, stack)) + (x + y) == Under(base, FaceOf(t, stack)) + x + y;
  }

  lemma FaceInside(t: Token, base: seq<Tag>, stack: seq<Tag>)
    ensures FaceOf(t, base + stack) == Under(base, FaceOf(t, stack))
  {
    UnderConcat(base, [], []);
    if FaceOf(t, stack) != [] {
      UnderOne(base, FaceOf(t, stack)[0]);
    }
  }

  lemma NoKinds()
    ensures Kinds([]) == []
  {
  }

  lemma FacesConcat(a: seq<Token>, b: seq<Token>)
    requires WellFormed(a)
    ensures Faces(a + b) == Faces(a) + Faces(b)
  {
    NoKinds();
    FacesThrough(a, b, [], []);
    UnderNone(Faces(a));
    assert AfterAll(a, []) == [];
  }

  lemma FacesWrapped(k: Kind, attrs: seq<Attr>, ts: seq<Token>)
    requires WellFormed(ts)
    ensures Faces(Wrap(k, attrs, ts)) == Under([Tag(k, attrs)], Faces(ts))
  {
    var close := [Close(k)];
    var tag := [Tag(k, attrs)];
    assert Wrap(k, attrs, ts) == [Open(k, attrs)] + (ts + close);
    assert ([Open(k, attrs)] + (ts + close))[1..] == ts + close;
    NoKinds();
    FacesThrough(ts, close, tag, []);
    assert AfterAll(ts, []) == [] && tag + [] == tag && [] + tag == tag;
    assert close[1..] == [] && FacesFrom(close, tag) == [];
    assert Under(tag, Faces(ts)) + [] == Under(tag, Faces(ts));
    assert [] + FacesFrom(ts + close, tag) == FacesFrom(ts + close, tag);
  }

  lemma {:induction false} FacesOfText(text: string)
    ensures Faces(TextTokens(text)) == Bare(NonSpace(text))
  {
    if text != [] {
      FacesOfText(text[1..]);
      var own := if IsSpace(text[0]) then [] else [text[0]];
      BareConcat(own, NonSpace(text[1..]));
      assert TextTokens(text)[1..] == TextTokens(text[1..]);
      assert Bare(own) == if IsSpace(text[0]) then [] else [Face(text[0], [])];
    }
  }

  lemma {:induction false} FacesOfMarks(ts: seq<Token>, stack: seq<Tag>)
    ensures FacesFrom(ts, stack) == FacesFrom(Marks(ts), stack)
  {
    if ts != [] {
      var t, rest := ts[0], ts[1..];
      FacesOfMarks(rest, After(t, stack));
      if t.Br? || (t.Ch? && IsSpace(t.c)) {
        assert [] + Marks(rest) == Marks(rest);
        assert [] + FacesFrom(rest, stack) == FacesFrom(rest, stack);
      } else {
        assert ([t] + Marks(rest))[1..] == Marks(rest);
      }
    }
  }

  lemma AlikeFaces(a: seq<Token>, b: seq<Token>)
    requires Alike(a, b)
    ensures Faces(a) == Faces(b)
  {
    FacesOfMarks(a, []);
    FacesOfMarks(b, []);
  }

  lemma NoFacesInNothing()
    ensures Faces([]) == []
  {
  }

  // ---- Faces of a tree -------------------------------------------------------------------------

  // The element an inline element is shown as, if it is a matter of format.
  function FormatOf(name: TagName): Option<Kind> {
    if name.B? || name.Strong? then Some(HtmlTokens.B)
    else if name.I? || name.Em? then Some(HtmlTokens.I)
    else if name.U? || name.Ins? then Some(HtmlTokens.U)
    else if name.S? || name.Strike? || name.Del? then Some(HtmlTokens.S)
    else if name == Other("constructor") then Some(Native)
    else None
  }

  // What stands before a list item in running text: a bullet, or in an ordered list its number.
  function MarkerOf(item: Node, readers: Readers): string
    requires item.Element?
  {
    if item.ordinal.None? then ['\U{2022}']
    else
      var own := if item.attrs.value.Some? then readers.listNumber(item.attrs.value.value) else None;
      NonSpace(Decimal(if own.None? then item.ordinal.value else own.value) + ".")
  }

  lemma MarkerOfItem(item: Node, readers: Readers)
    requires item.Element?
    ensures NonSpace(ListItemPrefix(item, readers)) == MarkerOf(item, readers)
  {
    assert BULLET[1..] == [' '] && " "[1..] == "";
    assert NonSpace(" ") == [];
    if item.ordinal.Some? {
      var own := if item.attrs.value.Some? then readers.listNumber(item.attrs.value.value) else None;
      var number := Decimal(if own.None? then item.ordinal.value else own.value) + ".";
      assert ListItemPrefix(item, readers) == number + " ";
      NonSpaceConcat(number, " ");
      assert NonSpace(number) + [] == NonSpace(number);
    }
  }

  function LinkTag(href: string): Tag {
    Tag(HtmlTokens.A, [Valued(Href, href)])
  }

  // A run of text with its bare URLs inside links.
  function UrlFaces(text: string, spans: seq<Span>, cursor: nat, readers: Readers): seq<Face>
    requires InOrder(spans, cursor, |text|)
    decreases |spans|
  {
    if spans == [] then Bare(NonSpace(text[cursor..]))
    else
      var start := spans[0].start;
      var candidate := LinkCandidate(text[start..spans[0].end]);
      if candidate.Some? && readers.synthesizedHref(candidate.value).Some? then
        InOrderFromEarlier(spans[1..], spans[0].end, start + |candidate.value|, |text|);
        var link := LinkTag(readers.synthesizedHref(candidate.value).value);
        Bare(NonSpace(text[cursor..start])) + Under([link], Bare(NonSpace(candidate.value)))
          + UrlFaces(text, spans[1..], start + |candidate.value|, readers)
      else
        InOrderFromEarlier(spans[1..], spans[0].end, cursor, |text|);
        UrlFaces(text, spans[1..], cursor, readers)
  }

  function RunFaces(run: string, linkify: bool, rich: bool, readers: Readers): seq<Face> {
    if linkify && rich then
      MatchesInOrder(run, 0);
      UrlFaces(run, Matches(run, 0), 0, readers)
    else Bare(NonSpace(run))
  }

  // The faces of sibling nodes behind a run of text, and the text that runs on behind them.
  function NodesFaces(nodes: seq<Node>, run: string, linkify: bool, rich: bool, readers: Readers): (seq<Face>, string)
    decreases nodes, 0
  {
    if nodes == [] then ([], run)
    else
      var (first, next) := NodeFaces(nodes[0], run, linkify, rich, readers);
      var (later, end) := NodesFaces(nodes[1..], next, linkify, rich, readers);
      (first + later, end)
  }

  function NodeFaces(node: Node, run: string, linkify: bool, rich: bool, readers: Readers): (seq<Face>, string)
    decreases node, 2
  {
    if node.Text? then ([], run + CleanText(node.data))
    else if node.NonContent? || IsDropped(node.name) then ([], run)
    else if IsTransparent(node.name) then NodesFaces(node.children, run, linkify, rich, readers)
    else if node.name.Br? then (RunFaces(run, linkify, rich, readers), "")
    else if node.name.Table? then (RunFaces(run, linkify, rich, readers) + Bare(CollectedNodeInk(node)), "")
    else if !HasInlineText(node.children) then ([], run)
    else (RunFaces(run, linkify, rich, readers) + ElementFaces(node, linkify, rich, readers), "")
  }

  /**
   * Text under an anchor, in preformatted text and in code is not searched for
   * URLs. A link around code and code hold text only; code around a link is
   * none, and no other format goes around code.
   */
  function ElementFaces(node: Node, linkify: bool, rich: bool, readers: Readers): seq<Face>
    requires node.Element?
    decreases node, 1
  {
    var name, below := node.name, linkify && !node.name.A? && !node.name.Pre? && !node.name.Code?;
    var inner, text := ContentFaces(node.children, below, rich, readers), Bare(InlineInk(node.children, readers, true));
    var linked, code := HoldsLink(node.children, below, readers), HoldsCode(node.children, below, readers);
    if name.Li? then Bare(MarkerOf(node, readers)) + inner
    else if name.Code? then if linked then inner else Under([Tag(HtmlTokens.Code, [])], text)
    else if name.A? then
      if IsAnchor(node, readers) && !linked then
        Under([LinkTag(readers.safeHref(node.attrs.href.value).value)], if code then text else inner)
      else inner
    else if FormatOf(name).Some? && !code then Under([Tag(FormatOf(name).value, [])], inner)
    else inner
  }

  /** The faces of inline content, in order. */
  function ContentFaces(nodes: seq<Node>, linkify: bool, rich: bool, readers: Readers): seq<Face>
    decreases nodes, 1
  {
    var (faces, end) := NodesFaces(nodes, "", linkify, rich, readers);
    faces + RunFaces(end, linkify, rich, readers)
  }

  // ---- The two agree ---------------------------------------------------------------------------

  // The same reading of parsed parts.
  function PartsFaces(parts: seq<Inline>, run: string, linkify: bool, rich: bool, readers: Readers):
    (seq<Face>, string)
  {
    if parts == [] then ([], run)
    else if parts[0].plain then PartsFaces(parts[1..], run + parts[0].text, linkify, rich, readers)
    else
      var (later, end) := PartsFaces(parts[1..], "", linkify, rich, readers);
      (RunFaces(run, linkify, rich, readers) + Faces(MarkupOf(parts[0], rich)) + later, end)
  }

  lemma {:induction false} PartsFacesConcat(
    a: seq<Inline>, b: seq<Inline>, run: string, linkify: bool, rich: bool, readers: Readers)
    ensures var (first, next) := PartsFaces(a, run, linkify, rich, readers);
            var (later, end) := PartsFaces(b, next, linkify, rich, readers);
            PartsFaces(a + b, run, linkify, rich, readers) == (first + later, end)
  {
    hide RunFaces, Faces, MarkupOf;
    if a == [] {
      assert a + b == b;
      var later := PartsFaces(b, run, linkify, rich, readers).0;
      assert [] + later == later;
    } else {
      assert (a + b)[0] == a[0] && (a + b)[1..] == a[1..] + b;
      var next := if a[0].plain then run + a[0].text else "";
      PartsFacesConcat(a[1..], b, next, linkify, rich, readers);
      var own := RunFaces(run, linkify, rich, readers) + Faces(MarkupOf(a[0], rich));
      var (first, open) := PartsFaces(a[1..], next, linkify, rich, readers);
      var later := PartsFaces(b, open, linkify, rich, readers).0;
      assert own + first + later == own + (first + later);
    }
  }

  lemma TextFaces(text: string)
    ensures WellFormed(TextTokens(text)) && Faces(TextTokens(text)) == Bare(NonSpace(text))
  {
    ScanText(TextTokens(text), []);
    FacesOfText(text);
  }

  // What is plain consists of the characters of its text.
  ghost predicate Plainly(c: Inline) {
    c.plain ==> Faces(c.classic) == Bare(NonSpace(c.text)) == Faces(c.rich)
  }

  lemma SoundIsPlainly(c: Inline)
    requires Sound(c)
    ensures Plainly(c)
  {
    hide Bare;
    if c.plain {
      TextOnly(c.classic, NonSpace(c.text));
      TextOnly(c.rich, NonSpace(c.text));
    }
  }

  lemma {:induction false} TextOnly(ts: seq<Token>, ink: string)
    requires OnlyText(ts) && Visible(ts) == ink
    ensures Faces(ts) == Bare(ink)
  {
    if ts != [] {
      var own := if IsSpace(ts[0].c) then [] else [ts[0].c];
      assert OnlyText(ts[1..]);
      TextOnly(ts[1..], Visible(ts[1..]));
      BareConcat(own, Visible(ts[1..]));
      assert Bare(own) == if IsSpace(ts[0].c) then [] else [Face(ts[0].c, [])];
    }
  }

  lemma {:induction false} FacesOfJoined(parts: seq<Inline>, run: string, rich: bool, readers: Readers)
    requires AllSound(parts)
    ensures var (faces, end) := PartsFaces(parts, run, false, rich, readers);
            Bare(NonSpace(run)) + Faces(JoinedMarkup(parts, rich)) == faces + Bare(NonSpace(end))
  {
    hide SoundMarkup, Sound, Faces, Bare, NonSpace;
    var before := Bare(NonSpace(run));
    NoFacesInNothing();
    if parts == [] {
      assert before + [] == before && [] + before == before;
    } else {
      var first := parts[0];
      assert Sound(first);
      SoundPart(first, rich);
      SoundIsPlainly(first);
      var own, rest := Faces(MarkupOf(first, rich)), Faces(JoinedMarkup(parts[1..], rich));
      FacesConcat(MarkupOf(first, rich), JoinedMarkup(parts[1..], rich));
      if first.plain {
        FacesOfJoined(parts[1..], run + first.text, rich, readers);
        NonSpaceConcat(run, first.text);
        BareConcat(NonSpace(run), NonSpace(first.text));
        assert before + (own + rest) == before + own + rest;
      } else {
        FacesOfJoined(parts[1..], "", rich, readers);
        NothingBare();
        var (later, end) := PartsFaces(parts[1..], "", false, rich, readers);
        assert [] + rest == rest;
        assert before + (own + (later + Bare(NonSpace(end)))) == before + own + later + Bare(NonSpace(end));
      }
    }
  }

  lemma NothingBare()
    ensures Bare(NonSpace("")) == [] == Bare("")
  {
  }

  // ---- Bare URLs -------------------------------------------------------------------------------

  lemma FacesOfLink(link: (string, string))
    ensures WellFormed(LinkTokens(link))
            && Faces(LinkTokens(link)) == Under([LinkTag(link.1)], Bare(NonSpace(link.0)))
  {
    hide Under, Bare;
    TextFaces(link.0);
    FacesWrapped(HtmlTokens.A, [Valued(Href, link.1)], TextTokens(link.0));
    ShowsLink(link);
  }

  lemma {:induction false} FacesOfLinkFrom(text: string, spans: seq<Span>, cursor: nat, readers: Readers)
    requires InOrder(spans, cursor, |text|)
    ensures Faces(LinkFrom(text, spans, cursor, readers.synthesizedHref)) == UrlFaces(text, spans, cursor, readers)
    decreases |spans|
  {
    hide TextTokens, LinkTokens, LinkCandidate, Faces, Under, Bare, NonSpace;
    if spans == [] {
      TextFaces(text[cursor..]);
    } else {
      var link := LinkAt(text, spans[0], readers.synthesizedHref);
      if link.None? {
        InOrderFromEarlier(spans[1..], spans[0].end, cursor, |text|);
        FacesOfLinkFrom(text, spans[1..], cursor, readers);
      } else {
        var next := spans[0].start + |link.value.0|;
        InOrderFromEarlier(spans[1..], spans[0].end, next, |text|);
        FacesOfLinkFrom(text, spans[1..], next, readers);
        var before, rest := text[cursor..spans[0].start], LinkFrom(text, spans[1..], next, readers.synthesizedHref);
        TextFaces(before);
        FacesOfLink(link.value);
        FacesConcat(TextTokens(before), LinkTokens(link.value) + rest);
        FacesConcat(LinkTokens(link.value), rest);
        assert TextTokens(before) + LinkTokens(link.value) + rest
            == TextTokens(before) + (LinkTokens(link.value) + rest);
        var x, y, z := Bare(NonSpace(before)), Faces(LinkTokens(link.value)), UrlFaces(text, spans[1..], next, readers);
        assert x + (y + z) == x + y + z;
      }
    }
  }

  lemma {:induction false} WithoutUrls(text: string, spans: seq<Span>, from: nat, cursor: nat, readers: Readers)
    requires InOrder(spans, from, |text|) && cursor <= from
    requires !SomeLink(text, spans, from, readers.synthesizedHref)
    ensures InOrder(spans, cursor, |text|) && UrlFaces(text, spans, cursor, readers) == Bare(NonSpace(text[cursor..]))
    decreases |spans|
  {
    InOrderFromEarlier(spans, from, cursor, |text|);
    if spans != [] {
      WithoutUrls(text, spans[1..], spans[0].end, cursor, readers);
    }
  }

  lemma FacesOfLinkedText(text: string, rich: bool, readers: Readers)
    ensures Faces(MarkupOf(LinkedText(text, readers), rich)) == RunFaces(text, true, rich, readers)
  {
    hide Faces, UrlFaces, Bare;
    TextFaces(text);
    MatchesInOrder(text, 0);
    if SomeLink(text, Matches(text, 0), 0, readers.synthesizedHref) {
      FacesOfLinkFrom(text, Matches(text, 0), 0, readers);
    } else {
      WithoutUrls(text, Matches(text, 0), 0, 0, readers);
      assert text[0..] == text;
    }
  }

  lemma FlushedFaces(run: seq<Inline>, rich: bool, readers: Readers)
    ensures var flushed := if run == [] then [] else [LinkedText(JoinText(run), readers)];
            WellFormed(JoinedMarkup(flushed, rich))
            && Faces(JoinedMarkup(flushed, rich)) == RunFaces(JoinText(run), true, rich, readers)
  {
    hide LinkedText, Faces, MarkupOf, SoundMarkup, RunFaces;
    if run == [] {
      NoFacesInNothing();
      NoRunFaces(true, rich, readers);
      assert JoinText([]) == "";
    } else {
      OneJoined(LinkedText(JoinText(run), readers), rich);
      LinkedTextSound(JoinText(run), readers);
      SoundPart(LinkedText(JoinText(run), readers), rich);
      FacesOfLinkedText(JoinText(run), rich, readers);
    }
  }

  lemma NoRunFaces(linkify: bool, rich: bool, readers: Readers)
    ensures RunFaces("", linkify, rich, readers) == []
  {
    MatchesInOrder("", 0);
    assert Matches("", 0) == [];
    NothingBare();
    assert ""[0..] == "";
  }

  lemma FacesAmid(before: seq<Inline>, part: Inline, rest: seq<Inline>, rich: bool)
    requires WellFormed(JoinedMarkup(before, rich)) && WellFormed(MarkupOf(part, rich))
    ensures Faces(JoinedMarkup(before + [part] + rest, rich)) ==
            Faces(JoinedMarkup(before, rich)) + Faces(MarkupOf(part, rich)) + Faces(JoinedMarkup(rest, rich))
  {
    hide Faces, MarkupOf, JoinedMarkup;
    JoinedConcat(before + [part], rest, rich);
    JoinedConcat(before, [part], rich);
    OneJoined(part, rich);
    var a, b, c := JoinedMarkup(before, rich), MarkupOf(part, rich), JoinedMarkup(rest, rich);
    FacesConcat(a, b + c);
    FacesConcat(b, c);
    assert a + b + c == a + (b + c);
    assert Faces(a) + (Faces(b) + Faces(c)) == Faces(a) + Faces(b) + Faces(c);
  }

  // Linking the runs of text gives the faces of `PartsFaces`.
  lemma {:induction false} FacesOfLinked(parts: seq<Inline>, run: seq<Inline>, rich: bool, readers: Readers)
    requires AllSound(parts)
    ensures var (faces, end) := PartsFaces(parts, JoinText(run), true, rich, readers);
            Faces(JoinedMarkup(LinkifyRuns(parts, run, readers), rich)) == faces + RunFaces(end, true, rich, readers)
    decreases |parts|
  {
    hide SoundMarkup, Sound, MarkupOf, Faces, RunFaces, LinkedText, JoinText;
    var text := JoinText(run);
    var flushed := if run == [] then [] else [LinkedText(text, readers)];
    FlushedFaces(run, rich, readers);
    if parts == [] {
      assert [] + RunFaces(text, true, rich, readers) == RunFaces(text, true, rich, readers);
    } else {
      var first := parts[0];
      assert Sound(first);
      SoundPart(first, rich);
      if first.plain {
        JoinOne(run, first);
        FacesOfLinked(parts[1..], run + [first], rich, readers);
      } else {
        JoinNone();
        FacesOfLinked(parts[1..], [], rich, readers);
        var rest := LinkifyRuns(parts[1..], [], readers);
        FacesAmid(flushed, first, rest, rich);
        var (later, end) := PartsFaces(parts[1..], "", true, rich, readers);
        var x := Faces(JoinedMarkup(flushed, rich)) + Faces(MarkupOf(first, rich));
        var z := RunFaces(end, true, rich, readers);
        assert x + (later + z) == x + later + z;
      }
    }
  }

  // ---- Inline content ----------------------------------------------------------------------------

  /**
   * For every list of nodes: in both markups, every visible character is inside
   * exactly the elements the tree says, in this order.
   */
  lemma {:induction false} FacesOfInline(
    nodes: seq<Node>, ctx: Context, depth: nat, trim: bool, linkify: bool, rich: bool, readers: Readers)
    requires !ctx.bounded
    ensures var c := ParseInline(nodes, ctx, depth, trim, linkify, readers).0;
            Faces(MarkupOf(c, rich)) == if c.text == [] then [] else ContentFaces(nodes, linkify, rich, readers)
    decreases nodes, 1
  {
    hide ExpandNodes, LinkifyRuns, NodesFaces, RunFaces, NormalizeText, NormalizeClassic, NormalizeRich, Faces, Sound,
         Alike;
    var parts := ExpandNodes(nodes, ctx, depth, linkify, readers).0;
    ExpandNodesSound(nodes, ctx, depth, linkify, readers);
    FacesOfNodes(nodes, ctx, depth, "", linkify, rich, readers);
    if linkify {
      JoinNone();
      FacesOfLinked(parts, [], rich, readers);
    } else {
      FacesOfJoined(parts, "", rich, readers);
      NothingBare();
      UnlinkedRunFaces(PartsFaces(parts, "", false, rich, readers).1, rich, readers);
      var faces := Faces(JoinedMarkup(parts, rich));
      assert [] + faces == faces;
    }
    CombinedFaces(if linkify then LinkifyRuns(parts, [], readers) else parts, trim, rich);
  }

  lemma UnlinkedRunFaces(run: string, rich: bool, readers: Readers)
    ensures RunFaces(run, false, rich, readers) == Bare(NonSpace(run))
  {
  }

  lemma CombinedFaces(parts: seq<Inline>, trim: bool, rich: bool)
    ensures var c := Combine(parts, trim);
            Faces(MarkupOf(c, rich)) == if c.text == [] then [] else Faces(JoinedMarkup(parts, rich))
  {
    hide NormalizeText, NormalizeClassic, NormalizeRich, Faces, Alike, MentionsLink;
    NoFacesInNothing();
    JoinedIs(parts);
    NormalizeClassicAlike(JoinClassic(parts), trim);
    NormalizeRichAlike(JoinRich(parts), trim);
    AlikeFaces(JoinClassic(parts), NormalizeClassic(JoinClassic(parts), trim));
    AlikeFaces(JoinRich(parts), NormalizeRich(JoinRich(parts), trim));
  }

  lemma {:induction false} FacesOfNodes(
    nodes: seq<Node>, ctx: Context, depth: nat, run: string, linkify: bool, rich: bool, readers: Readers)
    requires !ctx.bounded
    ensures PartsFaces(ExpandNodes(nodes, ctx, depth, linkify, readers).0, run, linkify, rich, readers) ==
            NodesFaces(nodes, run, linkify, rich, readers)
    decreases nodes, 0
  {
    hide NodeFaces, PartsFaces, RunFaces, ExpandInlineNode;
    if nodes == [] {
      NoPartsFaces(run, linkify, rich, readers);
    } else {
      var first := ExpandInlineNode(nodes[0], ctx, depth, linkify, readers).0;
      var next := NodeFaces(nodes[0], run, linkify, rich, readers).1;
      FacesOfNode(nodes[0], ctx, depth, run, linkify, rich, readers);
      FacesOfNodes(nodes[1..], ctx, depth, next, linkify, rich, readers);
      PartsFacesConcat(first, ExpandNodes(nodes[1..], ctx, depth, linkify, readers).0, run, linkify, rich, readers);
    }
  }

  lemma NoPartsFaces(run: string, linkify: bool, rich: bool, readers: Readers)
    ensures PartsFaces([], run, linkify, rich, readers) == ([], run)
  {
  }

  lemma OnePartFaces(p: Inline, run: string, linkify: bool, rich: bool, readers: Readers)
    ensures PartsFaces([p], run, linkify, rich, readers) ==
            if p.plain then ([], run + p.text)
            else (RunFaces(run, linkify, rich, readers) + Faces(MarkupOf(p, rich)), "")
  {
    hide RunFaces, Faces, MarkupOf;
    assert [p][1..] == [];
    var own := RunFaces(run, linkify, rich, readers) + Faces(MarkupOf(p, rich));
    assert own + [] == own;
  }

  lemma {:induction false} FacesOfNode(
    node: Node, ctx: Context, depth: nat, run: string, linkify: bool, rich: bool, readers: Readers)
    requires !ctx.bounded
    ensures PartsFaces(ExpandInlineNode(node, ctx, depth, linkify, readers).0, run, linkify, rich, readers) ==
            NodeFaces(node, run, linkify, rich, readers)
    decreases node, 2
  {
    hide PartsFaces, RunFaces, Faces, MarkupOf, CleanText, HasInlineText, ElementFaces, Bare;
    if node.Element? && IsTransparent(node.name) {
      FacesOfNodes(node.children, ctx, depth + 1, run, linkify, rich, readers);
    } else {
      OnePartFaces(ParseInlineNode(node, ctx, depth, linkify, readers).0, run, linkify, rich, readers);
      assert run + "" == run;
      if node.Element? {
        MarksOfElement(node, ctx, depth, linkify, readers);
        FacesOfElement(node, ctx, depth, linkify, rich, readers);
        var flushed := RunFaces(run, linkify, rich, readers);
        assert flushed + [] == flushed;
      }
    }
  }

  lemma {:induction false} FacesOfElement(
    node: Node, ctx: Context, depth: nat, linkify: bool, rich: bool, readers: Readers)
    requires !ctx.bounded && node.Element? && !IsTransparent(node.name)
    ensures var p, name := ParseElement(node, ctx, depth, linkify, readers).0, node.name;
            Faces(MarkupOf(p, rich)) ==
            if IsDropped(name) || name.Br? then []
            else if name.Table? then Bare(CollectedNodeInk(node))
            else if !HasInlineText(node.children) then []
            else ElementFaces(node, linkify, rich, readers)
    decreases node, 1
  {
    hide ParseInline, CollectText, RenderElement, HasInlineText, HoldsLink, HoldsCode, ContentFaces, Faces, Sound,
         InlineInk, Bare;
    var name := node.name;
    TextFaces("");
    NothingBare();
    BreakHasNoFaces();
    if name.Table? {
      TableTextFaces(node, ctx, depth, rich);
    } else if !IsDropped(name) && !name.Br? {
      var below := LinkifiesChildren(name, linkify);
      var child := ParseInline(node.children, ctx, depth + 1, false, below, readers).0;
      MarksOfInline(node.children, ctx, depth + 1, false, below, readers);
      ParseInlineInk(node.children, ctx, depth + 1, false, below, readers);
      ParseInlineSound(node.children, ctx, depth + 1, false, below, readers);
      FacesOfInline(node.children, ctx, depth + 1, false, below, rich, readers);
      FacesOfRendered(node, child, rich, readers);
    }
  }

  lemma TableTextFaces(node: Node, ctx: Context, depth: nat, rich: bool)
    requires !ctx.bounded && node.Element? && node.name.Table?
    ensures var c := PlainText(CollectText([node], ctx, depth + 1, false).0).(plain := false);
            Faces(MarkupOf(c, rich)) == Bare(CollectedNodeInk(node))
  {
    hide CollectText, Faces, Bare;
    TextFaces(CollectText([node], ctx, depth + 1, false).0);
    CollectTextInk([node], ctx, depth + 1, false);
    assert [node][1..] == [];
    assert CollectedNodeInk(node) + [] == CollectedNodeInk(node);
  }

  lemma BreakHasNoFaces()
    ensures Faces([Token.Br]) == [] && Faces(TextTokens("\n")) == []
  {
    TextFaces("\n");
    NothingBare();
    assert [Token.Br][1..] == [];
  }

  lemma OwnLineFaces(prefix: string, child: Inline, rich: bool)
    requires Sound(child)
    ensures Faces(MarkupOf(OwnLine(prefix, child), rich)) == Bare(NonSpace(prefix)) + Faces(MarkupOf(child, rich))
  {
    hide Faces, SoundMarkup, Sound, Bare, NonSpace;
    SoundPart(child, rich);
    BreakHasNoFaces();
    TextFaces("\n" + prefix);
    TextFaces(prefix);
    OwnLineText(prefix, child.text);
    var faces := Faces(MarkupOf(child, rich));
    if rich {
      assert WellFormed([Token.Br]) by { assert [Token.Br][1..] == []; }
      FacesConcat([Token.Br], TextTokens(prefix));
      WellFormedConcat([Token.Br], TextTokens(prefix));
      assert [] + Bare(NonSpace(prefix)) == Bare(NonSpace(prefix));
      FramedFaces([Token.Br] + TextTokens(prefix), child.rich, [Token.Br]);
    } else {
      FramedFaces(TextTokens("\n" + prefix), child.classic, TextTokens("\n"));
    }
  }

  lemma FramedFaces(before: seq<Token>, ts: seq<Token>, after: seq<Token>)
    requires WellFormed(before) && WellFormed(ts) && Faces(after) == []
    ensures Faces(before + ts + after) == Faces(before) + Faces(ts)
  {
    hide Faces;
    WellFormedConcat(before, ts);
    FacesConcat(before + ts, after);
    FacesConcat(before, ts);
    assert Faces(before) + Faces(ts) + [] == Faces(before) + Faces(ts);
  }

  lemma FacesOfAnchor(rawHref: Option<string>, child: Inline, rich: bool, readers: Readers)
    requires Sound(child)
    ensures Faces(MarkupOf(Anchor(rawHref, child, readers), rich)) ==
            if rawHref.Some? && readers.safeHref(rawHref.value).Some? && !child.containsAnchor then
              Under([LinkTag(readers.safeHref(rawHref.value).value)],
                    if child.containsCode then Bare(NonSpace(child.text)) else Faces(MarkupOf(child, rich)))
            else Faces(MarkupOf(child, rich))
  {
    hide Faces, SoundMarkup, Sound, Wrap, Under, Bare;
    SoundPart(child, rich);
    TextFaces(child.text);
    if rawHref.Some? && readers.safeHref(rawHref.value).Some? && !child.containsAnchor {
      FacesWrapped(HtmlTokens.A, [Valued(Href, readers.safeHref(rawHref.value).value)],
                   if child.containsCode then TextTokens(child.text) else MarkupOf(child, rich));
    }
  }

  lemma FacesOfFormatted(kind: Kind, child: Inline, rich: bool)
    requires Sound(child) && !kind.A?
    ensures Faces(MarkupOf(Formatted(kind, child), rich)) ==
            if kind == HtmlTokens.Code then
              if child.containsAnchor then Faces(MarkupOf(child, rich))
              else Under([Tag(kind, [])], Bare(NonSpace(child.text)))
            else if child.containsCode then Faces(MarkupOf(child, rich))
            else Under([Tag(kind, [])], Faces(MarkupOf(child, rich)))
  {
    hide Faces, SoundMarkup, Sound, Wrap, Under, Bare;
    SoundPart(child, rich);
    TextFaces(child.text);
    if kind == HtmlTokens.Code {
      FacesWrapped(kind, [], TextTokens(child.text));
    } else {
      FacesWrapped(kind, [], MarkupOf(child, rich));
    }
  }

  lemma FacesOfRendered(node: Node, child: Inline, rich: bool, readers: Readers)
    requires node.Element? && Sound(child)
    ensures var name, inner, text := node.name, Faces(MarkupOf(child, rich)), Bare(NonSpace(child.text));
            Faces(MarkupOf(RenderElement(node, child, readers), rich)) ==
            if name.Li? then Bare(MarkerOf(node, readers)) + inner
            else if name.Code? then if child.containsAnchor then inner else Under([Tag(HtmlTokens.Code, [])], text)
            else if name.A? then
              if IsAnchor(node, readers) && !child.containsAnchor then
                Under([LinkTag(readers.safeHref(node.attrs.href.value).value)],
                      if child.containsCode then text else inner)
              else inner
            else if FormatOf(name).Some? && !child.containsCode then Under([Tag(FormatOf(name).value, [])], inner)
            else inner
  {
    hide Faces, MarkupOf, SoundMarkup, Sound, OwnLine, Anchor, Formatted, ListItemPrefix, Under, Bare, NonSpace;
    NothingBare();
    var inner := Faces(MarkupOf(child, rich));
    assert [] + inner == inner;
    match RoleOf(node.name)
    case ListItem =>
      OwnLineFaces(ListItemPrefix(node, readers), child, rich);
      MarkerOfItem(node, readers);
    case Definition | Block => OwnLineFaces("", child, rich);
    case Link => FacesOfAnchor(node.attrs.href, child, rich, readers);
    case Format(kind) => FacesOfFormatted(kind, child, rich);
    case NoRole =>
  }
}
