/**
 * When nothing is lost. `AllText` is all text of a tree that is not dropped, in
 * document order. What is shown, list markers aside, never holds more, and is
 * all of it exactly if no text lies where the renderer does not look: in a list
 * outside its items, or in a table outside the cells of its rows.
 */
module HtmlWhole {
  import opened HtmlTokens
  import opened HtmlNormalize
  import opened HtmlLinks
  import opened HtmlDom
  import opened HtmlInline
  import opened HtmlBlocks
  import opened HtmlRender
  import opened HtmlRenderLaws
  import opened HtmlInk
  import opened HtmlRuns
  import opened HtmlShown

  // Elements whose text is never shown.
  predicate IsUnseen(n: TagName)
    ensures IsUnseen(n) <==> IsDropped(n)
  {
    match n
    case Applet | Audio | Button | Canvas | Embed | Form | Head | Iframe | Img | Input | LinkElement | MathElement
       | Meta | Noscript | ObjectElement | OptionElement | Script | Select | Source | Style | Svg | Textarea | Title
       | Track | Video => true
    case _ => false
  }

  // All visible characters of all text but that in such elements, in document order.
  function AllText(nodes: seq<Node>): string {
    if nodes == [] then [] else NodeText(nodes[0]) + AllText(nodes[1..])
  }

  function NodeText(node: Node): string {
    if node.Text? then NonSpace(node.data)
    else if node.Element? && !IsUnseen(node.name) then AllText(node.children)
    else []
  }

  // ---- Where text must be -----------------------------------------------------------------

  // Inline content loses only text inside <br>.
  predicate InlineWhole(nodes: seq<Node>) {
    nodes == [] || (NodeWhole(nodes[0]) && InlineWhole(nodes[1..]))
  }

  predicate NodeWhole(node: Node) {
    node.Element? && !IsDropped(node.name) ==>
      if node.name.Br? then AllText(node.children) == [] else InlineWhole(node.children)
  }

  // All text of a list is in its own items.
  predicate ItemsWhole(children: seq<Node>) {
    children != [] ==>
    && (if children[0].Element? && children[0].name.Li? then InlineWhole(children[0].children)
        else NodeText(children[0]) == [])
    && ItemsWhole(children[1..])
  }

  // All text of the rows is in their cells, and all text beside rows is blank.
  predicate CellsWhole(children: seq<Node>) {
    children != [] ==>
    && (if IsCell(children[0]) then InlineWhole(children[0].children) else NodeText(children[0]) == [])
    && CellsWhole(children[1..])
  }

  predicate RowsWhole(children: seq<Node>, groups: bool)
    decreases children
  {
    children != [] ==>
    && (if children[0].Element? && children[0].name.Tr? then CellsWhole(children[0].children)
        else if groups && IsRowGroup(children[0]) then RowsWhole(children[0].children, false)
        else NodeText(children[0]) == [])
    && RowsWhole(children[1..], groups)
  }

  function BeforeCaption(children: seq<Node>): (r: seq<Node>)
    ensures r <= children
  {
    if children == [] || (children[0].Element? && children[0].name.Caption?) then []
    else [children[0]] + BeforeCaption(children[1..])
  }

  function AfterCaption(children: seq<Node>): seq<Node> {
    if |BeforeCaption(children)| < |children| then children[|BeforeCaption(children)| + 1..] else []
  }

  function CaptionNodes(children: seq<Node>): seq<Node> {
    if FindCaption(children).Some? then FindCaption(children).value.children else []
  }

  // The text of the cells of all rows.
  function RowsText(children: seq<Node>, groups: bool, readers: Readers): string {
    RunsInk(RowRuns(DirectTableRows(children, groups)), readers, false)
  }

  // The caption is shown first, so moving it past the rows before it must change nothing; it usually is first.
  predicate CaptionLeads(children: seq<Node>, readers: Readers) {
    var rows, caption := RowsText(BeforeCaption(children), true, readers),
        InlineInk(CaptionNodes(children), readers, false);
    rows + caption == caption + rows
  }

  predicate DataTableWhole(children: seq<Node>, readers: Readers) {
    && RowsWhole(BeforeCaption(children), true) && RowsWhole(AfterCaption(children), true)
    && InlineWhole(CaptionNodes(children)) && CaptionLeads(children, readers)
  }

  predicate Whole(nodes: seq<Node>, readers: Readers)
    decreases nodes, 4
  {
    nodes != [] ==>
    && (if OpensBlock(nodes[0]) then ElementWhole(nodes[0], readers) else NodeWhole(nodes[0]))
    && Whole(nodes[1..], readers)
  }

  predicate ElementWhole(node: Node, readers: Readers)
    requires node.Element?
    decreases node, 1
  {
    var name := node.name;
    if name.Pre? then InlineWhole(node.children)
    else if name.Hr? then AllText(node.children) == []
    else if name.Ul? || name.Ol? then ItemsWhole(node.children)
    else if name.Table? then
      if IsDataTable(node, readers) then DataTableWhole(node.children, readers)
      else if DirectTableRows(node.children, true) == [] then LayoutCellWhole(node.children, readers)
      else LayoutRowsWhole(node.children, true, readers)
    else if ContainsBlockChild(node) && !name.Heading? && !name.Blockquote? && !name.Footer? then
      Whole(node.children, readers)
    else InlineWhole(node.children)
  }

  predicate LayoutRowsWhole(children: seq<Node>, groups: bool, readers: Readers)
    decreases children, 5
  {
    children != [] ==>
    && (if children[0].Element? && children[0].name.Tr? then LayoutCellsWhole(children[0].children, readers)
        else if groups && IsRowGroup(children[0]) then LayoutRowsWhole(children[0].children, false, readers)
        else NodeText(children[0]) == [])
    && LayoutRowsWhole(children[1..], groups, readers)
  }

  predicate LayoutCellsWhole(children: seq<Node>, readers: Readers)
    decreases children, 5
  {
    children != [] ==>
    && (if IsCell(children[0]) then LayoutCellWhole(children[0].children, readers) else NodeText(children[0]) == [])
    && LayoutCellsWhole(children[1..], readers)
  }

  // A cell that makes no block at all is shown as inline content.
  predicate LayoutCellWhole(content: seq<Node>, readers: Readers)
    decreases content, 5
  {
    if MakesBlocks(TreeRuns(content, [], readers), readers) then Whole(content, readers) else InlineWhole(content)
  }

  // ---- Showing part or all of a text -----------------------------------------------------------

  /** `shown` adds no character to `all`, and is `all` exactly if `whole`. */
  ghost predicate Renders(shown: string, all: string, whole: bool) {
    multiset(shown) <= multiset(all) && (shown == all <==> whole)
  }

  /** Also, text as long as `all` is `all`: nothing changes places. */
  ghost predicate RendersInOrder(shown: string, all: string, whole: bool) {
    Renders(shown, all, whole) && (|shown| == |all| ==> whole)
  }

  lemma NoLonger(shown: string, all: string)
    requires multiset(shown) <= multiset(all)
    ensures |shown| <= |all|
  {
    assert multiset(all) == multiset(shown) + (multiset(all) - multiset(shown));
    assert |multiset(all)| == |multiset(shown)| + |multiset(all) - multiset(shown)|;
  }

  lemma RendersBoth(a: string, x: string, p: bool, b: string, y: string, q: bool)
    requires Renders(a, x, p) && Renders(b, y, q)
    ensures Renders(a + b, x + y, p && q)
  {
    NoLonger(a, x);
    NoLonger(b, y);
    assert multiset(a + b) == multiset(a) + multiset(b) && multiset(x + y) == multiset(x) + multiset(y);
    if a + b == x + y {
      assert |a| == |x|;
      assert a == (a + b)[..|a|] && x == (x + y)[..|x|];
      assert b == (a + b)[|a|..] && y == (x + y)[|x|..];
    }
  }

  lemma InOrderBoth(a: string, x: string, p: bool, b: string, y: string, q: bool)
    requires RendersInOrder(a, x, p) && RendersInOrder(b, y, q)
    ensures RendersInOrder(a + b, x + y, p && q)
  {
    RendersBoth(a, x, p, b, y, q);
    NoLonger(a, x);
    NoLonger(b, y);
  }

  lemma Lost(all: string)
    ensures RendersInOrder([], all, all == [])
  {
  }

  lemma AllShown(all: string)
    ensures RendersInOrder(all, all, true)
  {
  }

  // ---- Inline content --------------------------------------------------------------------------

  lemma {:induction false} AllTextConcat(a: seq<Node>, b: seq<Node>)
    ensures AllText(a + b) == AllText(a) + AllText(b)
  {
    if a == [] {
      assert a + b == b;
    } else {
      assert (a + b)[0] == a[0] && (a + b)[1..] == a[1..] + b;
      AllTextConcat(a[1..], b);
      assert NodeText(a[0]) + (AllText(a[1..]) + AllText(b)) == NodeText(a[0]) + AllText(a[1..]) + AllText(b);
    }
  }

  lemma {:induction false} CollectedLaw(nodes: seq<Node>)
    ensures RendersInOrder(CollectedInk(nodes), AllText(nodes), InlineWhole(nodes))
    decreases nodes, 1
  {
    hide RendersInOrder;
    if nodes == [] {
      Lost([]);
    } else {
      CollectedNodeLaw(nodes[0]);
      CollectedLaw(nodes[1..]);
      InOrderBoth(CollectedNodeInk(nodes[0]), NodeText(nodes[0]), NodeWhole(nodes[0]),
                  CollectedInk(nodes[1..]), AllText(nodes[1..]), InlineWhole(nodes[1..]));
    }
  }

  lemma {:induction false} CollectedNodeLaw(node: Node)
    ensures RendersInOrder(CollectedNodeInk(node), NodeText(node), NodeWhole(node))
    decreases node, 0
  {
    if node.Element? && !IsDropped(node.name) {
      Lost(AllText(node.children));
      CollectedLaw(node.children);
    }
  }

  /** Inline content shows all its text in order. */
  lemma {:induction false} InlineLaw(nodes: seq<Node>, readers: Readers)
    ensures RendersInOrder(InlineInk(nodes, readers, false), AllText(nodes), InlineWhole(nodes))
    decreases nodes, 1
  {
    hide RendersInOrder;
    if nodes == [] {
      Lost([]);
    } else {
      NodeLaw(nodes[0], readers);
      InlineLaw(nodes[1..], readers);
      InOrderBoth(NodeInk(nodes[0], readers, false), NodeText(nodes[0]), NodeWhole(nodes[0]),
                  InlineInk(nodes[1..], readers, false), AllText(nodes[1..]), InlineWhole(nodes[1..]));
    }
  }

  lemma {:induction false} NodeLaw(node: Node, readers: Readers)
    ensures RendersInOrder(NodeInk(node, readers, false), NodeText(node), NodeWhole(node))
    decreases node, 0
  {
    hide RendersInOrder, AllText, CollectedInk, InlineInk, InlineWhole;
    AllShown(NodeText(node));
    Lost([]);
    if node.Element? && !IsDropped(node.name) {
      Lost(AllText(node.children));
      CollectedLaw(node.children);
      InlineLaw(node.children, readers);
      assert [] + InlineInk(node.children, readers, false) == InlineInk(node.children, readers, false);
    }
  }

  // ---- Lists and data tables ---------------------------------------------------------------------

  lemma {:induction false} RunsInkConcat(a: seq<Run>, b: seq<Run>, readers: Readers, marks: bool)
    ensures RunsInk(a + b, readers, marks) == RunsInk(a, readers, marks) + RunsInk(b, readers, marks)
  {
    hide RunInk;
    if a == [] {
      assert a + b == b;
    } else {
      assert (a + b)[0] == a[0] && (a + b)[1..] == a[1..] + b;
      RunsInkConcat(a[1..], b, readers, marks);
      var own, x, y := RunInk(a[0], readers, marks), RunsInk(a[1..], readers, marks), RunsInk(b, readers, marks);
      assert own + (x + y) == own + x + y;
    }
  }

  lemma OneRunInk(run: Run, readers: Readers, marks: bool)
    ensures RunsInk([run], readers, marks) == RunInk(run, readers, marks)
  {
    assert [run][1..] == [];
    assert RunInk(run, readers, marks) + [] == RunInk(run, readers, marks);
  }

  // One sibling, whose runs are known to render it, before the others.
  lemma InOrderStep(own: seq<Run>, text: string, p: bool, rest: seq<Run>, y: string, q: bool, readers: Readers)
    requires RendersInOrder(RunsInk(own, readers, false), text, p)
             && RendersInOrder(RunsInk(rest, readers, false), y, q)
    ensures RendersInOrder(RunsInk(own + rest, readers, false), text + y, p && q)
  {
    RunsInkConcat(own, rest, readers, false);
    InOrderBoth(RunsInk(own, readers, false), text, p, RunsInk(rest, readers, false), y, q);
  }

  lemma RendersStep(own: seq<Run>, text: string, p: bool, rest: seq<Run>, y: string, q: bool, readers: Readers)
    requires Renders(RunsInk(own, readers, false), text, p) && Renders(RunsInk(rest, readers, false), y, q)
    ensures Renders(RunsInk(own + rest, readers, false), text + y, p && q)
  {
    RunsInkConcat(own, rest, readers, false);
    RendersBoth(RunsInk(own, readers, false), text, p, RunsInk(rest, readers, false), y, q);
  }

  lemma InlinedLaw(nodes: seq<Node>, readers: Readers)
    ensures RendersInOrder(RunsInk([Inlined(nodes)], readers, false), AllText(nodes), InlineWhole(nodes))
  {
    OneRunInk(Inlined(nodes), readers, false);
    InlineLaw(nodes, readers);
  }

  lemma {:induction false} ItemsLaw(children: seq<Node>, readers: Readers)
    ensures RendersInOrder(RunsInk(ItemRuns(children), readers, false), AllText(children), ItemsWhole(children))
  {
    hide RendersInOrder, InlineInk;
    if children == [] {
      Lost([]);
    } else {
      var own: seq<Run>, whole: bool := [], NodeText(children[0]) == [];
      NoRuns(readers);
      Lost(NodeText(children[0]));
      if children[0].Element? && children[0].name.Li? {
        own, whole := [Inlined(children[0].children)], InlineWhole(children[0].children);
        InlinedLaw(children[0].children, readers);
      }
      ItemsLaw(children[1..], readers);
      InOrderStep(own, NodeText(children[0]), whole, ItemRuns(children[1..]), AllText(children[1..]),
                  ItemsWhole(children[1..]), readers);
    }
  }

  lemma {:induction false} CellsLaw(children: seq<Node>, readers: Readers)
    ensures RendersInOrder(RunsInk(CellRuns(children), readers, false), AllText(children), CellsWhole(children))
  {
    hide RendersInOrder, InlineInk;
    if children == [] {
      Lost([]);
    } else {
      var own: seq<Run>, whole: bool := [], NodeText(children[0]) == [];
      NoRuns(readers);
      Lost(NodeText(children[0]));
      if IsCell(children[0]) {
        own, whole := [Inlined(children[0].children)], InlineWhole(children[0].children);
        InlinedLaw(children[0].children, readers);
      }
      CellsLaw(children[1..], readers);
      InOrderStep(own, NodeText(children[0]), whole, CellRuns(children[1..]), AllText(children[1..]),
                  CellsWhole(children[1..]), readers);
    }
  }

  lemma {:induction false} RowRunsConcat(a: seq<Node>, b: seq<Node>)
    requires (forall r | r in a :: r.Element?) && (forall r | r in b :: r.Element?)
    ensures forall r | r in a + b :: r.Element?
    ensures RowRuns(a + b) == RowRuns(a) + RowRuns(b)
  {
    if a == [] {
      assert a + b == b;
    } else {
      assert (a + b)[0] == a[0] && (a + b)[1..] == a[1..] + b;
      RowRunsConcat(a[1..], b);
    }
  }

  // The first child, whose rows are known to render it, before the others.
  lemma RowsStep(own: seq<Node>, whole: bool, children: seq<Node>, groups: bool, readers: Readers)
    requires children != [] && forall r | r in own :: r.Element?
    requires DirectTableRows(children, groups) == own + DirectTableRows(children[1..], groups)
    requires RowsWhole(children, groups) <==> whole && RowsWhole(children[1..], groups)
    requires RendersInOrder(RunsInk(RowRuns(own), readers, false), NodeText(children[0]), whole)
    requires RendersInOrder(RowsText(children[1..], groups, readers), AllText(children[1..]),
                            RowsWhole(children[1..], groups))
    ensures RendersInOrder(RowsText(children, groups, readers), AllText(children), RowsWhole(children, groups))
  {
    hide RendersInOrder, RunsInk, RowsWhole, DirectTableRows, NodeText;
    var rest := DirectTableRows(children[1..], groups);
    RowRunsConcat(own, rest);
    InOrderStep(RowRuns(own), NodeText(children[0]), whole, RowRuns(rest), AllText(children[1..]),
                RowsWhole(children[1..], groups), readers);
  }

  lemma RunsOfOneRow(row: Node)
    requires row.Element?
    ensures RowRuns([row]) == CellRuns(row.children)
  {
    assert [row][1..] == [];
    assert CellRuns(row.children) + [] == CellRuns(row.children);
  }

  lemma TextOfElement(node: Node)
    requires node.Element? && !IsDropped(node.name)
    ensures NodeText(node) == AllText(node.children)
  {
  }

  lemma {:induction false} RowsLaw(children: seq<Node>, groups: bool, readers: Readers)
    ensures RendersInOrder(RowsText(children, groups, readers), AllText(children), RowsWhole(children, groups))
    decreases children
  {
    hide RendersInOrder, InlineInk, CellRuns, RunsInk, CellsWhole, InlineWhole, AllText, NodeText;
    NoRuns(readers);
    if children == [] {
      Lost([]);
      TextFromFirst([]);
    } else {
      var first := children[0];
      RowsLaw(children[1..], groups, readers);
      if first.Element? && first.name.Tr? {
        CellsLaw(first.children, readers);
        RunsOfOneRow(first);
        TextOfElement(first);
        RowsStep([first], CellsWhole(first.children), children, groups, readers);
      } else if groups && IsRowGroup(first) {
        RowsLaw(first.children, false, readers);
        TextOfElement(first);
        RowsStep(DirectTableRows(first.children, false), RowsWhole(first.children, false), children, groups, readers);
      } else {
        Lost(NodeText(first));
        RowsStep([], NodeText(first) == [], children, groups, readers);
      }
    }
  }

  lemma NoRuns(readers: Readers)
    ensures RunsInk([], readers, false) == []
  {
  }

  lemma Swapped(rows: string, caption: string, later: string, all: string, whole: bool)
    requires RendersInOrder(rows + caption + later, all, whole)
    ensures Renders(caption + (rows + later), all, whole && rows + caption == caption + rows)
  {
    var there, shown := rows + caption + later, caption + (rows + later);
    assert multiset(there) == multiset(rows) + multiset(caption) + multiset(later) == multiset(shown);
    if shown == all {
      assert |there| == |all| && there == all;
      assert rows + caption == there[..|rows| + |caption|] && caption + rows == shown[..|rows| + |caption|];
    }
    if whole && rows + caption == caption + rows {
      assert shown == caption + rows + later;
    }
  }

  lemma {:induction false} DirectTableRowsConcat(a: seq<Node>, b: seq<Node>, groups: bool)
    ensures DirectTableRows(a + b, groups) == DirectTableRows(a, groups) + DirectTableRows(b, groups)
  {
    hide DirectTableRows;
    if a == [] {
      NoRows(groups);
      assert a + b == b;
    } else {
      assert (a + b)[0] == a[0] && (a + b)[1..] == a[1..] + b;
      DirectTableRowsConcat(a[1..], b, groups);
      RowsFromFirst(a, groups);
      RowsFromFirst(a + b, groups);
    }
  }

  lemma {:induction false} CaptionAt(children: seq<Node>)
    ensures var n, caption := |BeforeCaption(children)|, FindCaption(children);
            && n <= |children|
            && (caption.None? <==> n == |children|)
            && (caption.Some? ==> children[n] == caption.value && caption.value.name.Caption?)
  {
    if children != [] && !(children[0].Element? && children[0].name.Caption?) {
      CaptionAt(children[1..]);
    }
  }

  lemma CaptionSplits(children: seq<Node>)
    ensures FindCaption(children).None? ==> BeforeCaption(children) == children && AfterCaption(children) == []
    ensures FindCaption(children).Some? ==>
              var caption := FindCaption(children).value;
              caption.name.Caption? && children == BeforeCaption(children) + [caption] + AfterCaption(children)
  {
    hide FindCaption, BeforeCaption;
    var n := |BeforeCaption(children)|;
    CaptionAt(children);
    assert BeforeCaption(children) == children[..n];
    if n < |children| {
      assert children == children[..n] + [children[n]] + children[n + 1..];
    }
  }

  // A data table shows its caption and then its rows.
  lemma DataTableLaw(children: seq<Node>, readers: Readers)
    ensures Renders(RunsInk(CaptionRuns(children) + RowRuns(DirectTableRows(children, true)), readers, false),
                    AllText(children), DataTableWhole(children, readers))
  {
    hide RowsWhole, InlineWhole, AllText, InlineInk, DirectTableRows, RowRuns;
    var before, after, nodes := BeforeCaption(children), AfterCaption(children), CaptionNodes(children);
    var rows, caption, later := RowsText(before, true, readers), InlineInk(nodes, readers, false),
        RowsText(after, true, readers);
    CaptionSplits(children);
    RowsLaw(before, true, readers);
    RowsLaw(after, true, readers);
    InlineLaw(nodes, readers);
    RunsInkConcat(CaptionRuns(children), RowRuns(DirectTableRows(children, true)), readers, false);
    NoRuns(readers);
    NothingIsWhole();
    RowsOfNothing(readers);
    if FindCaption(children).Some? {
      var node := FindCaption(children).value;
      OneRunInk(Inlined(nodes), readers, false);
      InOrderBoth(rows, AllText(before), RowsWhole(before, true), caption, AllText(nodes), InlineWhole(nodes));
      InOrderBoth(rows + caption, AllText(before) + AllText(nodes), RowsWhole(before, true) && InlineWhole(nodes),
                  later, AllText(after), RowsWhole(after, true));
      CaptionText(before, node, after, readers);
      Swapped(rows, caption, later, AllText(children),
              RowsWhole(before, true) && InlineWhole(nodes) && RowsWhole(after, true));
    } else {
      assert [] + rows == rows + [] == rows;
    }
  }

  lemma NothingIsWhole()
    ensures InlineWhole([]) && RowsWhole([], true) && AllText([]) == []
  {
  }

  lemma RowsOfNothing(readers: Readers)
    ensures RowsText([], true, readers) == [] && InlineInk([], readers, false) == []
  {
  }

  // The caption element adds its own text and no row.
  lemma CaptionText(before: seq<Node>, caption: Node, after: seq<Node>, readers: Readers)
    requires caption.Element? && caption.name.Caption?
    ensures var children := before + [caption] + after;
            && AllText(children) == AllText(before) + AllText(caption.children) + AllText(after)
            && RowsText(children, true, readers) == RowsText(before, true, readers) + RowsText(after, true, readers)
  {
    AllTextConcat(before, [caption]);
    AllTextConcat(before + [caption], after);
    assert AllText([caption]) == AllText(caption.children) + AllText([]) == AllText(caption.children);
    DirectTableRowsConcat(before, [caption], true);
    DirectTableRowsConcat(before + [caption], after, true);
    assert DirectTableRows([caption], true) == [] + DirectTableRows([], true) == [];
    var a, b := DirectTableRows(before, true), DirectTableRows(after, true);
    assert a + [] == a;
    RowRunsConcat(a, b);
    RunsInkConcat(RowRuns(a), RowRuns(b), readers, false);
  }

  // ---- The whole document ------------------------------------------------------------------------

  lemma {:induction false} InlineWholeConcat(a: seq<Node>, b: seq<Node>)
    ensures InlineWhole(a + b) <==> InlineWhole(a) && InlineWhole(b)
  {
    if a == [] {
      assert a + b == b;
    } else {
      assert (a + b)[0] == a[0] && (a + b)[1..] == a[1..] + b;
      InlineWholeConcat(a[1..], b);
    }
  }

  lemma {:induction false} BlankShowsNothing(data: string)
    requires IsBlank(data)
    ensures NonSpace(data) == []
  {
    if data != [] {
      BlankShowsNothing(data[1..]);
    }
  }

  lemma PendingLaw(pending: seq<Node>, readers: Readers)
    ensures Renders(RunsInk(PendingRun(pending), readers, false), AllText(pending), InlineWhole(pending))
  {
    NoRuns(readers);
    if pending != [] {
      InlinedLaw(pending, readers);
    }
  }

  lemma TextFromFirst(nodes: seq<Node>)
    ensures AllText(nodes) == if nodes == [] then [] else NodeText(nodes[0]) + AllText(nodes[1..])
  {
  }

  lemma {:induction false} TreeLaw(nodes: seq<Node>, pending: seq<Node>, readers: Readers)
    ensures Renders(RunsInk(TreeRuns(nodes, pending, readers), readers, false), AllText(pending) + AllText(nodes),
                    InlineWhole(pending) && Whole(nodes, readers))
    decreases nodes, 4
  {
    hide Renders, RunsInk, ElementRuns, ElementWhole, OpensBlock, InlineWhole, NodeWhole, AllText, NodeText, TreeRuns,
         Whole, PendingRun, JoinsRun;
    var text := AllText(pending);
    TextFromFirst(nodes);
    RunsFromFirst(nodes, pending, readers);
    if nodes == [] {
      PendingLaw(pending, readers);
      assert text + [] == text;
    } else {
      var own, later := NodeText(nodes[0]), AllText(nodes[1..]);
      SameText(text, own, later);
      if OpensBlock(nodes[0]) {
        PendingLaw(pending, readers);
        BlockLaw(nodes[0], readers);
        TreeLaw(nodes[1..], [], readers);
        NothingIsWhole();
        TextFromFirst([]);
        SameText([], [], later);
        RendersStep(PendingRun(pending), text, InlineWhole(pending), ElementRuns(nodes[0], readers), own,
                    ElementWhole(nodes[0], readers), readers);
        RendersStep(PendingRun(pending) + ElementRuns(nodes[0], readers), text + own,
                    InlineWhole(pending) && ElementWhole(nodes[0], readers),
                    TreeRuns(nodes[1..], [], readers), later, Whole(nodes[1..], readers), readers);
      } else {
        TreeLaw(nodes[1..], if JoinsRun(nodes[0]) then pending + [nodes[0]] else pending, readers);
        JoinedLaw(nodes[0], pending);
      }
    }
  }

  lemma SameText(a: string, b: string, c: string)
    ensures a + (b + c) == a + b + c && [] + c == c
  {
  }

  lemma RunsFromFirst(nodes: seq<Node>, pending: seq<Node>, readers: Readers)
    ensures nodes == [] ==> TreeRuns(nodes, pending, readers) == PendingRun(pending) && Whole(nodes, readers)
    ensures nodes != [] && OpensBlock(nodes[0]) ==>
              && TreeRuns(nodes, pending, readers) ==
                 PendingRun(pending) + ElementRuns(nodes[0], readers) + TreeRuns(nodes[1..], [], readers)
              && (Whole(nodes, readers) <==> ElementWhole(nodes[0], readers) && Whole(nodes[1..], readers))
    ensures nodes != [] && !OpensBlock(nodes[0]) ==>
              && TreeRuns(nodes, pending, readers) ==
                 TreeRuns(nodes[1..], if JoinsRun(nodes[0]) then pending + [nodes[0]] else pending, readers)
              && (Whole(nodes, readers) <==> NodeWhole(nodes[0]) && Whole(nodes[1..], readers))
  {
    hide OpensBlock, JoinsRun, ElementRuns, ElementWhole, NodeWhole;
  }

  // A node that joins the run adds its text; one that does not has none.
  lemma JoinedLaw(node: Node, pending: seq<Node>)
    requires !OpensBlock(node)
    ensures var joined := if JoinsRun(node) then pending + [node] else pending;
            && AllText(joined) == AllText(pending) + NodeText(node)
            && (InlineWhole(joined) <==> InlineWhole(pending) && NodeWhole(node))
  {
    assert AllText(pending) + [] == AllText(pending);
    if JoinsRun(node) {
      AllTextConcat(pending, [node]);
      assert AllText([node]) == NodeText(node) + AllText([]) == NodeText(node);
      InlineWholeConcat(pending, [node]);
      assert InlineWhole([node]) <==> NodeWhole(node) && InlineWhole([]);
    } else if node.Text? {
      BlankShowsNothing(node.data);
    }
  }

  lemma {:induction false} BlockLaw(node: Node, readers: Readers)
    requires OpensBlock(node)
    ensures Renders(RunsInk(ElementRuns(node, readers), readers, false), NodeText(node), ElementWhole(node, readers))
    decreases node, 1
  {
    hide IsDataTable, DataTableWhole, LayoutRowsWhole, LayoutCellWhole, LayoutRowRuns, LayoutCellRuns, TreeRuns, Whole,
         AllText, InlineWhole, InlineInk, CollectedInk;
    var name, children := node.name, node.children;
    if name.Pre? {
      OneRunInk(Verbatim(children), readers, false);
      CollectedLaw(children);
    } else if name.Hr? {
      OneRunInk(Rule, readers, false);
      Lost(AllText(children));
    } else if name.Ul? || name.Ol? {
      ItemsLaw(children, readers);
    } else if name.Table? {
      if IsDataTable(node, readers) {
        DataTableLaw(children, readers);
      } else if DirectTableRows(children, true) == [] {
        LayoutCellLaw(children, readers);
      } else {
        LayoutRowsLaw(children, true, readers);
      }
    } else if ContainsBlockChild(node) && !name.Heading? && !name.Blockquote? && !name.Footer? {
      TreeLaw(children, [], readers);
      NothingIsWhole();
      assert [] + AllText(children) == AllText(children);
    } else {
      InlinedLaw(children, readers);
    }
  }

  lemma {:induction false} LayoutRowsLaw(children: seq<Node>, groups: bool, readers: Readers)
    ensures Renders(RunsInk(LayoutRowRuns(children, groups, readers), readers, false), AllText(children),
                    LayoutRowsWhole(children, groups, readers))
    decreases children, 5
  {
    hide Renders, RunsInk, LayoutCellsRuns, LayoutCellsWhole;
    NoRuns(readers);
    Nothing();
    if children != [] {
      var first := children[0];
      var own: seq<Run>, whole: bool := [], NodeText(first) == [];
      if first.Element? && first.name.Tr? {
        own, whole := LayoutCellsRuns(first.children, readers), LayoutCellsWhole(first.children, readers);
        LayoutCellsLaw(first.children, readers);
      } else if groups && IsRowGroup(first) {
        own, whole := LayoutRowRuns(first.children, false, readers), LayoutRowsWhole(first.children, false, readers);
        LayoutRowsLaw(first.children, false, readers);
      } else {
        LostText(NodeText(first));
      }
      LayoutRowsLaw(children[1..], groups, readers);
      RendersStep(own, NodeText(first), whole, LayoutRowRuns(children[1..], groups, readers), AllText(children[1..]),
                  LayoutRowsWhole(children[1..], groups, readers), readers);
    }
  }

  lemma Nothing()
    ensures Renders([], [], true)
  {
  }

  lemma LostText(all: string)
    ensures Renders([], all, all == [])
  {
  }

  lemma {:induction false} LayoutCellsLaw(children: seq<Node>, readers: Readers)
    ensures Renders(RunsInk(LayoutCellsRuns(children, readers), readers, false), AllText(children),
                    LayoutCellsWhole(children, readers))
    decreases children, 5
  {
    hide Renders, RunsInk, LayoutCellRuns, LayoutCellWhole;
    NoRuns(readers);
    Nothing();
    if children != [] {
      var first := children[0];
      var own: seq<Run>, whole: bool := [], NodeText(first) == [];
      if IsCell(first) {
        own, whole := LayoutCellRuns(first.children, readers), LayoutCellWhole(first.children, readers);
        LayoutCellLaw(first.children, readers);
      } else {
        LostText(NodeText(first));
      }
      LayoutCellsLaw(children[1..], readers);
      RendersStep(own, NodeText(first), whole, LayoutCellsRuns(children[1..], readers), AllText(children[1..]),
                  LayoutCellsWhole(children[1..], readers), readers);
    }
  }

  lemma {:induction false} LayoutCellLaw(content: seq<Node>, readers: Readers)
    ensures Renders(RunsInk(LayoutCellRuns(content, readers), readers, false), AllText(content),
                    LayoutCellWhole(content, readers))
    decreases content, 5
  {
    hide MakesBlocks, TreeRuns, Whole, AllText, InlineInk;
    if MakesBlocks(TreeRuns(content, [], readers), readers) {
      TreeLaw(content, [], readers);
      NothingIsWhole();
      assert [] + AllText(content) == AllText(content);
    } else {
      InlinedLaw(content, readers);
    }
  }

  /**
   * For every tree: what is shown, list markers aside, adds no character to the
   * text of the tree, and is all of it in document order exactly if the tree
   * has no text in a lost place.
   */
  lemma ShowsAllTextExactlyWhen(nodes: seq<Node>, readers: Readers)
    ensures Renders(TreeInk(nodes, readers, false), AllText(nodes), Whole(nodes, readers))
  {
    TreeLaw(nodes, [], readers);
    assert [] + AllText(nodes) == AllText(nodes);
  }

  /** Whenever a rich form is produced, it shows exactly the ink of the tree, markers included. */
  lemma RichShowsTheTree(children: seq<Node>, sourceTruncated: bool, domTruncated: bool, readers: Readers)
    requires RenderDocument(children, sourceTruncated, domTruncated, readers).rich.Some?
    ensures Visible(RenderDocument(children, sourceTruncated, domTruncated, readers).rich.value)
            == TreeInk(children, readers, true)
  {
    hide RenderDocument, TreeInk, ParseBlocks;
    RenderedDocument(children, sourceTruncated, domTruncated, readers);
    ParseBlocksInk(children, FreshContext(false, false).Unbounded(), 0, readers);
  }

  // ---- Text that is lost ---------------------------------------------------------------------------

  const PLAIN := Attributes(None, None, None, None, None, None, None, None, false)

  // <ul><li>a</li><ul><li>b</li></ul></ul>
  const NESTED_LIST := Element(TagName.Ul, PLAIN, None, [
    Element(TagName.Li, PLAIN, None, [Text("a")]),
    Element(TagName.Ul, PLAIN, None, [Element(TagName.Li, PLAIN, None, [Text("b")])])])

  lemma NestedListText()
    ensures AllText([NESTED_LIST]) == "ab" && AllText([NESTED_LIST.children[1]]) == "b"
  {
    var inner := NESTED_LIST.children[1];
    assert NonSpace("a") == "a" && NonSpace("b") == "b";
    assert AllText([Text("a")]) == "a" && AllText([Text("b")]) == "b";
    assert AllText(inner.children) == "b" + AllText([]) == "b";
    assert AllText([inner]) == "b" + AllText([]) == "b";
    assert AllText(NESTED_LIST.children) == "a" + AllText([inner]);
    assert AllText([NESTED_LIST]) == "ab" + AllText([]) == "ab";
  }

  lemma NestedListRuns(readers: Readers)
    ensures TreeRuns([NESTED_LIST], [], readers) == [Inlined([Text("a")])]
  {
    var item := Inlined([Text("a")]);
    assert NESTED_LIST.children[1..] == [NESTED_LIST.children[1]] && [NESTED_LIST.children[1]][1..] == [];
    assert ItemRuns([NESTED_LIST.children[1]]) == [];
    assert ItemRuns(NESTED_LIST.children) == [item];
    assert ElementRuns(NESTED_LIST, readers) == [item];
    assert TreeRuns([], [], readers) == [] && [NESTED_LIST][1..] == [];
  }

  lemma NestedListInk(readers: Readers, marks: bool)
    ensures TreeInk([NESTED_LIST], readers, marks) == "a"
  {
    hide TreeRuns;
    NestedListRuns(readers);
    OneRunInk(Inlined([Text("a")]), readers, marks);
    assert NonSpace("a") == "a";
    assert InlineInk([Text("a")], readers, marks) == "a" + InlineInk([], readers, marks) == "a";
  }

  /** A list that is a direct child of a list is lost, although such lists are common in mail. */
  lemma NestedListIsLost(readers: Readers)
    ensures AllText([NESTED_LIST]) == "ab" && TreeInk([NESTED_LIST], readers, true) == "a"
    ensures !Whole([NESTED_LIST], readers)
  {
    hide TreeInk, AllText, Whole;
    NestedListText();
    NestedListInk(readers, true);
    NestedListInk(readers, false);
    ShowsAllTextExactlyWhen([NESTED_LIST], readers);
  }
}
