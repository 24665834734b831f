/**
 * The parser as the program runs it: loops over child nodes that charge one
 * mutable context. Each method computes exactly the function of the same name
 * in `HtmlInline` or `HtmlBlocks`, and leaves the context that function says.
 */
module HtmlParser {
  import opened HtmlTokens
  import opened HtmlNormalize
  import opened HtmlLinks
  import opened HtmlDom
  import HtmlInline
  import HtmlBlocks
  import HtmlRender
  import Layout = TableLayout

  type Inline = HtmlInline.Inline
  type Block = HtmlBlocks.Block
  type Cell = HtmlBlocks.Cell

  // ---- Inline content -----------------------------------------------------------------

  method CollectText(nodes: seq<Node>, context: ParseContext, depth: nat, preserveWhitespace: bool)
    returns (text: string)
    modifies context
    ensures (text, context.Value()) == HtmlInline.CollectText(nodes, old(context.Value()), depth, preserveWhitespace)
    decreases nodes
  {
    var joined := "";
    ghost var whole := HtmlInline.CollectParts(nodes, context.Value(), depth, preserveWhitespace);
    assert nodes[0..] == nodes && "" + whole.0 == whole.0;
    var i := 0;
    while i < |nodes|
      invariant i <= |nodes|
      invariant var (rest, c) := HtmlInline.CollectParts(nodes[i..], context.Value(), depth, preserveWhitespace);
                whole == (joined + rest, c)
    {
      assert nodes[i..][0] == nodes[i] && nodes[i..][1..] == nodes[i + 1..];
      var entered := context.EnterNode(depth);
      if entered {
        var own := OwnText(nodes[i], context, depth, preserveWhitespace);
        ghost var rest := HtmlInline.CollectParts(nodes[i + 1..], context.Value(), depth, preserveWhitespace).0;
        assert joined + (own + rest) == joined + own + rest;
        joined := joined + own;
      } else if context.nodeLimitExceeded {
        break;
      }
      i := i + 1;
    }
    assert joined + "" == joined;
    var unified := TextOf(UnifyNewlines(TextTokens(joined)));
    text := if preserveWhitespace then unified else NormalizeText(unified, true);
  }

  method OwnText(node: Node, context: ParseContext, depth: nat, preserveWhitespace: bool) returns (own: string)
    modifies context
    ensures (own, context.Value()) == HtmlInline.OwnText(node, old(context.Value()), depth, preserveWhitespace)
    decreases node
  {
    own := "";
    if node.Text? {
      own := node.data;
    } else if node.Element? && !IsDropped(node.name) {
      if node.name.Br? {
        own := "\n";
      } else {
        own := CollectText(node.children, context, depth + 1, preserveWhitespace);
        if own != [] && IsBlockElement(node.name) {
          own := "\n" + own + "\n";
        }
      }
    }
  }

  // Join each maximal run of plain parts and link the joined text once.
  method LinkifyPlainRuns(parts: seq<Inline>, readers: Readers) returns (out: seq<Inline>)
    ensures out == HtmlInline.LinkifyRuns(parts, [], readers)
  {
    out := [];
    var run: seq<Inline> := [];
    for i := 0 to |parts|
      invariant out + HtmlInline.LinkifyRuns(parts[i..], run, readers) == HtmlInline.LinkifyRuns(parts, [], readers)
    {
      assert parts[i..][1..] == parts[i + 1..];
      if parts[i].plain {
        run := run + [parts[i]];
      } else {
        ghost var rest := HtmlInline.LinkifyRuns(parts[i + 1..], [], readers);
        var flushed := if run == [] then [] else [HtmlInline.LinkedText(HtmlInline.JoinText(run), readers)];
        assert out + (flushed + [parts[i]] + rest) == out + flushed + [parts[i]] + rest;
        out := out + flushed + [parts[i]];
        run := [];
      }
    }
    out := out + if run == [] then [] else [HtmlInline.LinkedText(HtmlInline.JoinText(run), readers)];
  }

  method ParseInline(
    nodes: seq<Node>, context: ParseContext, depth: nat, trimBoundary: bool, linkify: bool, readers: Readers)
    returns (content: Inline)
    modifies context
    ensures (content, context.Value()) ==
            HtmlInline.ParseInline(nodes, old(context.Value()), depth, trimBoundary, linkify, readers)
    decreases nodes, 1
  {
    var rawParts := ExpandNodes(nodes, context, depth, linkify, readers);
    if linkify {
      var parts := LinkifyPlainRuns(rawParts, readers);
      return HtmlInline.Combine(parts, trimBoundary);
    }
    return HtmlInline.Combine(rawParts, trimBoundary);
  }

  method ExpandNodes(nodes: seq<Node>, context: ParseContext, depth: nat, linkify: bool, readers: Readers)
    returns (parts: seq<Inline>)
    modifies context
    ensures (parts, context.Value()) == HtmlInline.ExpandNodes(nodes, old(context.Value()), depth, linkify, readers)
    decreases nodes, 0
  {
    hide HtmlInline.ExpandInlineNode;
    parts := [];
    ghost var whole := HtmlInline.ExpandNodes(nodes, context.Value(), depth, linkify, readers);
    assert nodes[0..] == nodes && [] + whole.0 == whole.0;
    for i := 0 to |nodes|
      invariant var (rest, c) := HtmlInline.ExpandNodes(nodes[i..], context.Value(), depth, linkify, readers);
                whole == (parts + rest, c)
    {
      assert nodes[i..][0] == nodes[i] && nodes[i..][1..] == nodes[i + 1..];
      var part := ExpandInlineNode(nodes[i], context, depth, linkify, readers);
      ghost var rest := HtmlInline.ExpandNodes(nodes[i + 1..], context.Value(), depth, linkify, readers).0;
      assert parts + (part + rest) == parts + part + rest;
      parts := parts + part;
    }
    assert parts + [] == parts;
  }

  method ExpandInlineNode(node: Node, context: ParseContext, depth: nat, linkify: bool, readers: Readers)
    returns (parts: seq<Inline>)
    modifies context
    ensures (parts, context.Value()) == HtmlInline.ExpandInlineNode(node, old(context.Value()), depth, linkify, readers)
    decreases node, 2
  {
    if !node.Element? || !HtmlInline.IsTransparent(node.name) {
      var part := ParseInlineNode(node, context, depth, linkify, readers);
      return [part];
    }
    var entered := context.EnterNode(depth);
    if !entered {
      return [];
    }
    parts := ExpandNodes(node.children, context, depth + 1, linkify, readers);
  }

  method ParseInlineNode(node: Node, context: ParseContext, depth: nat, linkify: bool, readers: Readers)
    returns (content: Inline)
    modifies context
    ensures (content, context.Value())
            == HtmlInline.ParseInlineNode(node, old(context.Value()), depth, linkify, readers)
    decreases node, 1
  {
    var entered := context.EnterNode(depth);
    if !entered || node.NonContent? {
      return HtmlInline.EmptyInline();
    }
    if node.Text? {
      return HtmlInline.PlainText(HtmlInline.CleanText(node.data));
    }
    content := ParseElement(node, context, depth, linkify, readers);
  }

  method ParseElement(node: Node, context: ParseContext, depth: nat, linkify: bool, readers: Readers)
    returns (content: Inline)
    requires node.Element?
    modifies context
    ensures (content, context.Value()) == HtmlInline.ParseElement(node, old(context.Value()), depth, linkify, readers)
    decreases node, 0
  {
    if IsDropped(node.name) {
      return HtmlInline.EmptyInline();
    }
    if node.name.Br? {
      return HtmlInline.Inline("\n", TextTokens("\n"), [Token.Br], false, 0, false, false, false);
    }
    if node.name.Table? {
      var text := CollectText([node], context, depth + 1, false);
      return HtmlInline.PlainText(text).(plain := false);
    }
    var childLinkify := HtmlInline.LinkifiesChildren(node.name, linkify);
    var child := ParseInline(node.children, context, depth + 1, false, childLinkify, readers);
    return if child.text == [] then HtmlInline.EmptyInline() else HtmlInline.RenderElement(node, child, readers);
  }

  // ---- Tables ---------------------------------------------------------------------------

  method ContainsNestedTable(children: seq<Node>, context: ParseContext, depth: nat) returns (found: bool)
    modifies context
    ensures (found, context.Value()) == HtmlBlocks.ContainsNestedTable(children, old(context.Value()), depth)
    decreases children
  {
    ghost var whole := HtmlBlocks.ContainsNestedTable(children, context.Value(), depth);
    for i := 0 to |children|
      invariant HtmlBlocks.ContainsNestedTable(children[i..], context.Value(), depth) == whole
    {
      var child := children[i];
      assert children[i..][0] == child && children[i..][1..] == children[i + 1..];
      var entered := context.EnterNode(depth);
      if !entered {
        if context.nodeLimitExceeded {
          return false;
        }
      } else if child.Element? {
        if child.name.Table? {
          return true;
        }
        var nested := ContainsNestedTable(child.children, context, depth + 1);
        if nested {
          return true;
        }
      }
    }
    return false;
  }

  // The nodes still to look at form a stack: children are pushed, the last one is popped.
  method IsEntireCellStrong(cell: Node, context: ParseContext, depth: nat, readers: Readers) returns (strong: bool)
    requires cell.Element?
    modifies context
    ensures (strong, context.Value()) == HtmlBlocks.IsEntireCellStrong(cell, old(context.Value()), depth, readers)
  {
    var pending := HtmlBlocks.PushChildren(cell.children, depth, HtmlBlocks.ResolveStrong(false, cell, readers));
    var hasVisibleText := false;
    ghost var whole := HtmlBlocks.AllStrong(pending, false, context.Value(), readers);
    while pending != []
      invariant HtmlBlocks.AllStrong(pending, hasVisibleText, context.Value(), readers) == whole
      decreases HtmlBlocks.PendingSize(pending), |pending|
    {
      var current := pending[|pending| - 1];
      pending := pending[..|pending| - 1];
      var entered := context.EnterNode(current.depth);
      if !entered {
        return false;
      }
      if current.node.Text? {
        if !HtmlBlocks.IsBlank(current.node.data) {
          hasVisibleText := true;
          if !current.strong {
            return false;
          }
        }
      } else if current.node.Element? && !IsDropped(current.node.name) {
        var inherited := HtmlBlocks.ResolveStrong(current.strong, current.node, readers);
        var pushed := HtmlBlocks.PushChildren(current.node.children, current.depth + 1, inherited);
        HtmlBlocks.PendingSizeConcat(pending, pushed);
        HtmlBlocks.PushedSize(current.node.children, current.depth + 1, inherited);
        pending := pending + pushed;
      }
    }
    return hasVisibleText;
  }

  method ParseCell(cell: Node, context: ParseContext, depth: nat, readers: Readers) returns (parsed: Cell)
    requires cell.Element?
    modifies context
    ensures (parsed, context.Value()) == HtmlBlocks.ParseCell(cell, old(context.Value()), depth, readers)
  {
    var content := ParseInline(cell.children, context, depth + 1, true, true, readers);
    var strong := true;
    if !cell.name.Th? {
      strong := IsEntireCellStrong(cell, context, depth + 1, readers);
    }
    parsed := HtmlBlocks.Cell(
      content, cell.name.Th?, strong, HtmlBlocks.BoundedSpan(cell.attrs.colspan, readers),
      HtmlBlocks.BoundedSpan(cell.attrs.rowspan, readers), HtmlBlocks.SafeAlign(cell.attrs.align),
      HtmlBlocks.SafeVAlign(cell.attrs.valign));
  }

  method ParseCells(children: seq<Node>, context: ParseContext, depth: nat, readers: Readers) returns (row: seq<Cell>)
    modifies context
    ensures (row, context.Value()) == HtmlBlocks.ParseCells(children, old(context.Value()), depth, readers)
  {
    hide HtmlBlocks.ParseCell;
    row := [];
    ghost var whole := HtmlBlocks.ParseCells(children, context.Value(), depth, readers);
    assert children[0..] == children && [] + whole.0 == whole.0;
    for i := 0 to |children|
      invariant var (rest, c) := HtmlBlocks.ParseCells(children[i..], context.Value(), depth, readers);
                whole == (row + rest, c)
    {
      assert children[i..][0] == children[i] && children[i..][1..] == children[i + 1..];
      if HtmlBlocks.IsCell(children[i]) {
        var cell := ParseCell(children[i], context, depth, readers);
        ghost var rest := HtmlBlocks.ParseCells(children[i + 1..], context.Value(), depth, readers).0;
        assert row + ([cell] + rest) == row + [cell] + rest;
        row := row + [cell];
      }
    }
    assert row + [] == row;
  }

  method ParseRows(rowElements: seq<Node>, context: ParseContext, depth: nat, readers: Readers)
    returns (rows: seq<seq<Cell>>)
    requires forall r | r in rowElements :: r.Element?
    modifies context
    ensures (rows, context.Value()) == HtmlBlocks.ParseRows(rowElements, old(context.Value()), depth, readers)
  {
    hide HtmlBlocks.ParseCells, HtmlBlocks.HasText, HtmlBlocks.ParseRows;
    rows := [];
    ghost var whole := HtmlBlocks.ParseRows(rowElements, context.Value(), depth, readers);
    assert rowElements[0..] == rowElements && [] + whole.0 == whole.0;
    for i := 0 to |rowElements|
      invariant var (rest, c) := HtmlBlocks.ParseRows(rowElements[i..], context.Value(), depth, readers);
                whole == (rows + rest, c)
    {
      assert rowElements[i..][0] == rowElements[i] && rowElements[i..][1..] == rowElements[i + 1..];
      ghost var before := context.Value();
      var row := ParseCells(rowElements[i].children, context, depth, readers);
      var kept := if HtmlBlocks.HasText(row) then [row] else [];
      ghost var rest := HtmlBlocks.ParseRows(rowElements[i + 1..], context.Value(), depth, readers).0;
      OneRowMore(rowElements[i..], before, depth, readers);
      assert rows + (kept + rest) == rows + kept + rest;
      rows := rows + kept;
    }
    NoMoreRows(context.Value(), depth, readers);
    assert rows + [] == rows;
  }

  lemma OneRowMore(rows: seq<Node>, ctx: Context, depth: nat, readers: Readers)
    requires rows != [] && forall r | r in rows :: r.Element?
    ensures var (first, c1) := HtmlBlocks.ParseCells(rows[0].children, ctx, depth, readers);
            var (rest, c2) := HtmlBlocks.ParseRows(rows[1..], c1, depth, readers);
            HtmlBlocks.ParseRows(rows, ctx, depth, readers)
              == ((if HtmlBlocks.HasText(first) then [first] else []) + rest, c2)
  {
    var c1 := HtmlBlocks.ParseCells(rows[0].children, ctx, depth, readers).1;
    var rest := HtmlBlocks.ParseRows(rows[1..], c1, depth, readers).0;
    assert [] + rest == rest;
  }

  lemma NoMoreRows(ctx: Context, depth: nat, readers: Readers)
    ensures HtmlBlocks.ParseRows([], ctx, depth, readers) == ([], ctx)
  {
  }

  // ---- Blocks -----------------------------------------------------------------------------

  method ParseBlocks(nodes: seq<Node>, context: ParseContext, depth: nat, readers: Readers) returns (blocks: seq<Block>)
    modifies context
    ensures (blocks, context.Value()) == HtmlBlocks.ParseBlocks(nodes, old(context.Value()), depth, readers)
    decreases nodes, 4
  {
    blocks := [];
    var inlineRun: seq<Node> := [];
    ghost var whole := HtmlBlocks.VisitNodes(nodes, HtmlBlocks.Progress([], [], context.Value()), depth, readers);
    var i := 0;
    while i < |nodes|
      invariant i <= |nodes|
      invariant HtmlBlocks.VisitNodes(
                  nodes[i..], HtmlBlocks.Progress(inlineRun, blocks, context.Value()), depth, readers) == whole
    {
      assert nodes[i..][0] == nodes[i] && nodes[i..][1..] == nodes[i + 1..];
      var entered := context.EnterNode(depth);
      if !entered {
        if context.nodeLimitExceeded {
          break;
        }
      } else {
        inlineRun, blocks := VisitNode(nodes[i], inlineRun, blocks, context, depth, readers);
      }
      i := i + 1;
    }
    assert whole == HtmlBlocks.Progress(inlineRun, blocks, context.Value());
    blocks := FlushInlineRun(inlineRun, blocks, context, depth, readers);
  }

  method PushBlock(block: Block, blocks: seq<Block>, context: ParseContext) returns (pushed: seq<Block>)
    modifies context
    ensures forall run :: HtmlBlocks.Progress(run, pushed, context.Value()) ==
              HtmlBlocks.PushBlock(block, HtmlBlocks.Progress(run, blocks, old(context.Value())))
  {
    if |blocks| >= MAX_MODEL_BLOCKS {
      context.modelTruncated := true;
      return blocks;
    }
    return blocks + [block];
  }

  method PushBlocks(more: seq<Block>, blocks: seq<Block>, context: ParseContext) returns (pushed: seq<Block>)
    modifies context
    ensures HtmlBlocks.Progress([], pushed, context.Value()) ==
            HtmlBlocks.PushBlocks(more, HtmlBlocks.Progress([], blocks, old(context.Value())))
  {
    pushed := blocks;
    ghost var whole := HtmlBlocks.PushBlocks(more, HtmlBlocks.Progress([], blocks, context.Value()));
    for i := 0 to |more|
      invariant HtmlBlocks.PushBlocks(more[i..], HtmlBlocks.Progress([], pushed, context.Value())) == whole
    {
      assert more[i..][0] == more[i] && more[i..][1..] == more[i + 1..];
      pushed := PushBlock(more[i], pushed, context);
    }
  }

  method FlushInlineRun(run: seq<Node>, blocks: seq<Block>, context: ParseContext, depth: nat, readers: Readers)
    returns (flushed: seq<Block>)
    modifies context
    ensures HtmlBlocks.Progress([], flushed, context.Value()) ==
            HtmlBlocks.FlushInlineRun(HtmlBlocks.Progress(run, blocks, old(context.Value())), depth, readers)
  {
    flushed := blocks;
    if run != [] {
      var content := ParseInline(run, context, depth + 1, true, true, readers);
      if content.text != [] {
        flushed := PushBlock(HtmlBlocks.ParagraphBlock(content), flushed, context);
      }
    }
  }

  method VisitNode(
    node: Node, run: seq<Node>, blocks: seq<Block>, context: ParseContext, depth: nat, readers: Readers)
    returns (newRun: seq<Node>, newBlocks: seq<Block>)
    modifies context
    ensures HtmlBlocks.Progress(newRun, newBlocks, context.Value()) ==
            HtmlBlocks.VisitNode(node, HtmlBlocks.Progress(run, blocks, old(context.Value())), depth, readers)
    decreases node, 2
  {
    newRun, newBlocks := run, blocks;
    if node.Text? {
      if !HtmlBlocks.IsBlank(node.data) {
        newRun := run + [node];
      }
    } else if node.Element? && !IsDropped(node.name) {
      if IsBlockElement(node.name) || HtmlBlocks.ContainsBlockChild(node) {
        newRun := [];
        newBlocks := FlushInlineRun(run, blocks, context, depth, readers);
        var more := ElementBlocks(node, context, depth, readers);
        newBlocks := PushBlocks(more, newBlocks, context);
      } else {
        newRun := run + [node];
      }
    }
  }

  method ParseItems(children: seq<Node>, context: ParseContext, depth: nat, readers: Readers)
    returns (items: seq<Inline>)
    modifies context
    ensures (items, context.Value()) == HtmlBlocks.ParseItems(children, old(context.Value()), depth, readers)
  {
    hide HtmlInline.ParseInline;
    items := [];
    ghost var whole := HtmlBlocks.ParseItems(children, context.Value(), depth, readers);
    assert children[0..] == children && [] + whole.0 == whole.0;
    for i := 0 to |children|
      invariant var (rest, c) := HtmlBlocks.ParseItems(children[i..], context.Value(), depth, readers);
                whole == (items + rest, c)
    {
      assert children[i..][0] == children[i] && children[i..][1..] == children[i + 1..];
      if children[i].Element? && children[i].name.Li? {
        var item := ParseInline(children[i].children, context, depth, true, true, readers);
        ghost var rest := HtmlBlocks.ParseItems(children[i + 1..], context.Value(), depth, readers).0;
        assert items + ([item] + rest) == items + [item] + rest;
        if item.text != [] {
          items := items + [item];
        }
      }
    }
    assert items + [] == items;
  }

  method ElementBlocks(node: Node, context: ParseContext, depth: nat, readers: Readers) returns (blocks: seq<Block>)
    requires node.Element?
    modifies context
    ensures (blocks, context.Value()) == HtmlBlocks.ElementBlocks(node, old(context.Value()), depth, readers)
    decreases node, 1
  {
    var name := node.name;
    if name.Pre? {
      var collected := CollectText(node.children, context, depth + 1, true);
      var text := TextOf(TrimEnd(TextTokens(collected)));
      return if text == [] then [] else [HtmlBlocks.PreBlock(text)];
    }
    if name.Hr? {
      return [HtmlBlocks.DividerBlock];
    }
    if name.Ul? || name.Ol? {
      var items := ParseItems(node.children, context, depth + 1, readers);
      var start := if name.Ol? then HtmlBlocks.BoundedListStart(node.attrs.start, readers) else 1;
      return if items == [] then [] else [HtmlBlocks.ListBlock(name.Ol?, start, items)];
    }
    if name.Table? {
      blocks := ParseTableElement(node, context, depth + 1, readers);
      return;
    }
    if HtmlBlocks.ContainsBlockChild(node) && !name.Heading? && !name.Blockquote? && !name.Footer? {
      blocks := ParseBlocks(node.children, context, depth + 1, readers);
      return;
    }
    var content := ParseInline(node.children, context, depth + 1, true, true, readers);
    return HtmlBlocks.ContentBlock(name, content);
  }

  method ParseTableElement(table: Node, context: ParseContext, depth: nat, readers: Readers)
    returns (blocks: seq<Block>)
    requires table.Element?
    modifies context
    ensures (blocks, context.Value()) == HtmlBlocks.ParseTableElement(table, old(context.Value()), depth, readers)
    decreases table, 0
  {
    var rowElements := HtmlBlocks.DirectTableRows(table.children, true);
    var hasNestedTable := ContainsNestedTable(table.children, context, depth + 1);
    if table.attrs.presentation || hasNestedTable {
      blocks := FlattenLayoutTable(table.children, context, depth + 1, readers);
      return;
    }
    var parsed := ParseRows(rowElements, context, depth + 1, readers);
    if parsed == [] {
      blocks := FlattenLayoutTable(table.children, context, depth + 1, readers);
      return;
    }
    var rows := HtmlBlocks.RemoveEmptyUnspannedColumns(parsed);
    var _, logicalColumns := Layout.PositionTableRows(HtmlBlocks.TableSpans(rows));
    if logicalColumns <= 1 {
      blocks := FlattenLayoutTable(table.children, context, depth + 1, readers);
      return;
    }
    var captionElement := HtmlBlocks.FindCaption(table.children);
    var caption: Option<Inline> := None;
    if captionElement.Some? {
      var content := ParseInline(captionElement.value.children, context, depth + 1, true, true, readers);
      caption := Some(content);
    }
    return [HtmlBlocks.TableBlock(HtmlBlocks.BuildTable(rows, caption, readers))];
  }

  method FlattenLayoutTable(children: seq<Node>, context: ParseContext, depth: nat, readers: Readers)
    returns (blocks: seq<Block>)
    modifies context
    ensures (blocks, context.Value()) == HtmlBlocks.FlattenLayoutTable(children, old(context.Value()), depth, readers)
    decreases children, 6
  {
    if HtmlBlocks.DirectTableRows(children, true) == [] {
      blocks := FlattenCell(children, context, depth, readers);
    } else {
      blocks := FlattenRows(children, true, context, depth, readers);
    }
  }

  method FlattenRows(children: seq<Node>, groups: bool, context: ParseContext, depth: nat, readers: Readers)
    returns (blocks: seq<Block>)
    modifies context
    ensures (blocks, context.Value()) == HtmlBlocks.FlattenRows(children, groups, old(context.Value()), depth, readers)
    decreases children, 5
  {
    hide HtmlBlocks.FlattenCells;
    blocks := [];
    ghost var whole := HtmlBlocks.FlattenRows(children, groups, context.Value(), depth, readers);
    assert children[0..] == children && [] + whole.0 == whole.0;
    for i := 0 to |children|
      invariant var (rest, c) := HtmlBlocks.FlattenRows(children[i..], groups, context.Value(), depth, readers);
                whole == (blocks + rest, c)
    {
      var child := children[i];
      assert children[i..][0] == child && children[i..][1..] == children[i + 1..];
      var more: seq<Block> := [];
      if child.Element? && child.name.Tr? {
        more := FlattenCells(child.children, context, depth, readers);
      } else if groups && HtmlBlocks.IsRowGroup(child) {
        more := FlattenRows(child.children, false, context, depth, readers);
      }
      ghost var rest := HtmlBlocks.FlattenRows(children[i + 1..], groups, context.Value(), depth, readers).0;
      assert blocks + (more + rest) == blocks + more + rest;
      blocks := blocks + more;
    }
    assert blocks + [] == blocks;
  }

  method FlattenCells(children: seq<Node>, context: ParseContext, depth: nat, readers: Readers)
    returns (blocks: seq<Block>)
    modifies context
    ensures (blocks, context.Value()) == HtmlBlocks.FlattenCells(children, old(context.Value()), depth, readers)
    decreases children, 5
  {
    hide HtmlBlocks.FlattenCell;
    blocks := [];
    ghost var whole := HtmlBlocks.FlattenCells(children, context.Value(), depth, readers);
    assert children[0..] == children && [] + whole.0 == whole.0;
    for i := 0 to |children|
      invariant var (rest, c) := HtmlBlocks.FlattenCells(children[i..], context.Value(), depth, readers);
                whole == (blocks + rest, c)
    {
      assert children[i..][0] == children[i] && children[i..][1..] == children[i + 1..];
      var more: seq<Block> := [];
      if HtmlBlocks.IsCell(children[i]) {
        more := FlattenCell(children[i].children, context, depth, readers);
      }
      ghost var rest := HtmlBlocks.FlattenCells(children[i + 1..], context.Value(), depth, readers).0;
      assert blocks + (more + rest) == blocks + more + rest;
      blocks := blocks + more;
    }
    assert blocks + [] == blocks;
  }

  method FlattenCell(content: seq<Node>, context: ParseContext, depth: nat, readers: Readers)
    returns (blocks: seq<Block>)
    modifies context
    ensures (blocks, context.Value()) == HtmlBlocks.FlattenCell(content, old(context.Value()), depth, readers)
    decreases content, 5
  {
    blocks := ParseBlocks(content, context, depth + 1, readers);
    if blocks == [] {
      var inlined := ParseInline(content, context, depth + 1, true, true, readers);
      if inlined.text != [] {
        blocks := [HtmlBlocks.ParagraphBlock(inlined)];
      }
    }
  }

  // ---- The document -------------------------------------------------------------------------

  method RenderStructuredEmailHtml(children: seq<Node>, sourceTruncated: bool, domTruncated: bool, readers: Readers)
    returns (result: HtmlRender.Rendered)
    ensures result == HtmlRender.RenderDocument(children, sourceTruncated, domTruncated, readers)
  {
    var context := new ParseContext(sourceTruncated, domTruncated);
    var parsed := ParseBlocks(children, context, 0, readers);
    var blocks := HtmlRender.DocumentBlocks(parsed, context.Value(), HtmlRender.OMITTED_NOTICE);
    var stats := HtmlRender.MeasureRichStats(blocks);
    var reason := HtmlRender.RichIneligibility(context.Value(), stats);
    result := HtmlRender.Rendered(
      HtmlRender.RenderClassic(blocks), if reason.None? then Some(HtmlRender.RenderRich(blocks)) else None, reason,
      HtmlRender.HasLinks(blocks), parsed != [], stats);
  }
}
