/**
 * How documents look: every visible character of both rendered forms, in order,
 * with the elements around it, said block by block.
 */
module HtmlLook {
  import opened HtmlTokens
  import opened HtmlNormalize
  import opened HtmlLinks
  import opened HtmlDom
  import opened HtmlInline
  import opened HtmlBlocks
  import opened HtmlBlockLaws
  import opened HtmlRender
  import opened HtmlRenderLaws
  import opened HtmlInk
  import opened HtmlRuns
  import opened HtmlShown
  import opened HtmlClassicInk
  import opened HtmlTargets
  import opened HtmlFaces
  import opened HtmlTreeBlocks
  import Layout = TableLayout

  // ---- How blocks look --------------------------------------------------------------------------

  function Named(kind: Kind): Tag {
    Tag(kind, [])
  }

  function EachFace(items: seq<Inline>): seq<Face> {
    if items == [] then [] else Faces(items[0].rich) + EachFace(items[1..])
  }

  function CellFaces(row: seq<Cell>): seq<Face> {
    if row == [] then []
    else
      Under([Tag(if row[0].isHeader then Kind.Th else Kind.Td, CellAttrs(row[0]))], Faces(row[0].content.rich))
        + CellFaces(row[1..])
  }

  function RowFaces(rows: seq<seq<Cell>>): seq<Face> {
    if rows == [] then [] else Under([Named(Kind.Tr)], CellFaces(rows[0])) + RowFaces(rows[1..])
  }

  /** A block in the rich form. */
  function RichFaces(b: Block): seq<Face> {
    match b
    case ParagraphBlock(c) => Under([Named(P)], Faces(c.rich))
    case HeadingBlock(level, c) => Under([Named(H(level))], Faces(c.rich))
    case PreBlock(text) => Under([Named(Kind.Pre)], HtmlFaces.Bare(NonSpace(text)))
    case ListBlock(ordered, start, items) =>
      var list :=
        if ordered then Tag(Kind.Ol, if start == 1 then [] else [Valued(AttrName.Start, Decimal(start))])
        else Named(Kind.Ul);
      Under([list], Under([Named(Kind.Li)], EachFace(items)))
    case QuoteBlock(c) => Under([Named(Kind.Blockquote)], Faces(c.rich))
    case DividerBlock => []
    case FooterBlock(c) => Under([Named(Kind.Footer)], Faces(c.rich))
    case TableBlock(t) =>
      var caption := if t.caption.Some? then Under([Named(Kind.Caption)], Faces(t.caption.value.rich)) else [];
      Under([Tag(Kind.Table, [Bordered, Compact])], caption + RowFaces(t.rows))
  }

  function RichLook(blocks: seq<Block>): seq<Face> {
    if blocks == [] then [] else RichFaces(blocks[0]) + RichLook(blocks[1..])
  }

  function Flat(parts: seq<seq<Face>>): seq<Face> {
    if parts == [] then [] else parts[0] + Flat(parts[1..])
  }

  // Parts with the visible characters of a separator between them.
  function Between(parts: seq<seq<Face>>, separator: string): seq<Face> {
    if parts == [] then []
    else if |parts| == 1 then parts[0]
    else parts[0] + HtmlFaces.Bare(NonSpace(separator)) + Between(parts[1..], separator)
  }

  function BoldFaces(c: Inline): seq<Face> {
    if c.containsCode then Faces(c.classic) else Under([Named(HtmlTokens.B)], Faces(c.classic))
  }

  // Item `k` of a list, behind its number or a bullet.
  function ItemFaces(ordered: bool, number: int, item: Inline): seq<Face> {
    HtmlFaces.Bare(if ordered then NonSpace(Decimal(number) + ".") else ['\U{2022}']) + Faces(item.classic)
  }

  function AllItemFaces(ordered: bool, start: int, items: seq<Inline>): (r: seq<seq<Face>>)
    ensures |r| == |items|
  {
    seq(|items|, k requires 0 <= k < |items| => ItemFaces(ordered, start + k, items[k]))
  }

  // Content with a quote mark behind every line break.
  function QuotedFaces(ts: seq<Token>, stack: seq<Tag>): seq<Face> {
    if ts == [] then []
    else
      (if ts[0] == Ch('\n') then [Face('>', stack)] else FaceOf(ts[0], stack))
        + QuotedFaces(ts[1..], After(ts[0], stack))
  }

  // A key in bold before its value; a key without a value; keys that are missing are numbered.
  function PairFaces(row: seq<Cell>, index: nat): seq<seq<Face>>
    decreases |row| - index
  {
    if index >= |row| then []
    else
      var key, value := row[index].content, CellAt(row, index + 1).content;
      var name := if key.text == [] then "Field " + Decimal(index / 2 + 1) else key.text;
      (if value.text != []
       then [Under([Named(HtmlTokens.B)], HtmlFaces.Bare(NonSpace(name + ":"))) + Faces(value.classic)]
       else if key.text != [] then [Faces(key.classic)]
       else []) + PairFaces(row, index + 2)
  }

  // The cells with text, each behind the label of its column, but for the one in the first column.
  function FieldFaces(row: seq<Cell>, places: seq<Layout.Rect>, headers: seq<Cell>, headerPlaces: seq<Layout.Rect>):
    seq<seq<Face>>
    requires |row| == |places| && |headers| == |headerPlaces|
  {
    if row == [] then []
    else
      (if IsField(row[0], places[0]) then
         [HtmlFaces.Bare(NonSpace(FieldName(headers, headerPlaces, places[0].column) + ":"))
            + Faces(row[0].content.classic)]
       else []) + FieldFaces(row[1..], places[1..], headers, headerPlaces)
  }

  function TitleFaces(row: seq<Cell>, places: seq<Layout.Rect>): seq<Face>
    requires |row| == |places|
  {
    if row == [] then []
    else if places[0].column == 0 then BoldFaces(row[0].content)
    else TitleFaces(row[1..], places[1..])
  }

  function TextCellFaces(row: seq<Cell>): seq<seq<Face>> {
    if row == [] then []
    else (if row[0].content.text == [] then [] else [Faces(row[0].content.classic)]) + TextCellFaces(row[1..])
  }

  const DOT := ['\U{b7}']

  // The rows of a table in the classic form, with dots between the parts of a row.
  function KeyValueFaces(rows: seq<seq<Cell>>): seq<seq<Face>> {
    if rows == [] then [] else [Between(PairFaces(rows[0], 0), DOT)] + KeyValueFaces(rows[1..])
  }

  function RecordFaces(
    rows: seq<seq<Cell>>, places: seq<seq<Layout.Rect>>, headers: seq<Cell>, headerPlaces: seq<Layout.Rect>):
    seq<seq<Face>>
    requires |rows| == |places| && |headers| == |headerPlaces|
    requires forall i | 0 <= i < |rows| :: |rows[i]| == |places[i]|
  {
    if rows == [] then []
    else
      var fields := FieldFaces(rows[0], places[0], headers, headerPlaces);
      [TitleFaces(rows[0], places[0]) + Between(fields, DOT)]
        + RecordFaces(rows[1..], places[1..], headers, headerPlaces)
  }

  function GridFaces(rows: seq<seq<Cell>>): seq<seq<Face>> {
    if rows == [] then [] else [Between(TextCellFaces(rows[0]), DOT)] + GridFaces(rows[1..])
  }

  function TableFaces(table: TableModel): seq<Face> {
    Flat(if table.kind == KeyValue then KeyValueFaces(table.rows)
         else if ShownAsRecords(table) then
           var places := Layout.Place(TableSpans(table.rows));
           RecordFaces(table.rows[1..], places[1..], table.rows[0], places[0])
         else GridFaces(table.rows))
  }

  /** A block in the classic form. */
  function ClassicFaces(b: Block): seq<Face> {
    match b
    case ParagraphBlock(c) => Faces(c.classic)
    case HeadingBlock(_, c) => BoldFaces(c)
    case PreBlock(text) => Under([Named(Kind.Pre)], HtmlFaces.Bare(NonSpace(text)))
    case ListBlock(ordered, start, items) =>
      Flat(AllItemFaces(ordered, start, items))
    case QuoteBlock(c) => HtmlFaces.Bare(">") + QuotedFaces(c.classic, [])
    case DividerBlock => HtmlFaces.Bare(seq(8, _ => '\U{2500}'))
    case FooterBlock(c) => Faces(c.classic)
    case TableBlock(t) => (if t.caption.Some? then BoldFaces(t.caption.value) else []) + TableFaces(t)
  }

  function ClassicLook(blocks: seq<Block>): seq<Face> {
    if blocks == [] then [] else ClassicFaces(blocks[0]) + ClassicLook(blocks[1..])
  }

  // ---- Markup that looks like this anywhere ----------------------------------------------------

  /** Balanced markup with these faces, whatever is around it. */
  ghost predicate Looks(ts: seq<Token>, faces: seq<Face>) {
    forall stack: seq<Tag> :: FacesFrom(ts, stack) == Under(stack, faces) && AfterAll(ts, stack) == stack
  }

  lemma {:induction false} FacesFromConcat(a: seq<Token>, b: seq<Token>, stack: seq<Tag>)
    ensures FacesFrom(a + b, stack) == FacesFrom(a, stack) + FacesFrom(b, AfterAll(a, stack))
    ensures AfterAll(a + b, stack) == AfterAll(b, AfterAll(a, stack))
  {
    hide After, FaceOf;
    if a == [] {
      assert a + b == b;
      assert [] + FacesFrom(b, stack) == FacesFrom(b, stack);
    } else {
      assert (a + b)[0] == a[0] && (a + b)[1..] == a[1..] + b;
      var next := After(a[0], stack);
      FacesFromConcat(a[1..], b, next);
      var own, x, y := FaceOf(a[0], stack), FacesFrom(a[1..], next), FacesFrom(b, AfterAll(a, stack));
      assert own + (x + y) == own + x + y;
    }
  }

  lemma LooksBoth(a: seq<Token>, x: seq<Face>, b: seq<Token>, y: seq<Face>)
    requires Looks(a, x) && Looks(b, y)
    ensures Looks(a + b, x + y)
  {
    hide Under, FacesFrom, AfterAll;
    forall stack: seq<Tag>
      ensures FacesFrom(a + b, stack) == Under(stack, x + y) && AfterAll(a + b, stack) == stack
    {
      FacesFromConcat(a, b, stack);
      UnderConcat(stack, x, y);
      assert FacesFrom(a, stack) == Under(stack, x) && FacesFrom(b, stack) == Under(stack, y);
    }
  }

  lemma LooksNothing()
    ensures Looks([], [])
  {
  }

  lemma UnderTwice(a: seq<Tag>, b: seq<Tag>, faces: seq<Face>)
    ensures Under(a, Under(b, faces)) == Under(a + b, faces)
  {
    forall i | 0 <= i < |faces| ensures Under(a, Under(b, faces))[i] == Under(a + b, faces)[i] {
      assert a + (b + faces[i].path) == a + b + faces[i].path;
    }
  }

  lemma LooksWrapped(k: Kind, attrs: seq<Attr>, ts: seq<Token>, faces: seq<Face>)
    requires Looks(ts, faces)
    ensures Looks(Wrap(k, attrs, ts), Under([Tag(k, attrs)], faces))
  {
    hide Under, FacesFrom, AfterAll;
    var tag, shown := [Tag(k, attrs)], Under([Tag(k, attrs)], faces);
    forall stack: seq<Tag>
      ensures FacesFrom(Wrap(k, attrs, ts), stack) == Under(stack, shown)
              && AfterAll(Wrap(k, attrs, ts), stack) == stack
    {
      FacesFromConcat([Open(k, attrs)] + ts, [Close(k)], stack);
      FacesFromConcat([Open(k, attrs)], ts, stack);
      TagTokens(k, attrs, stack);
      UnderTwice(stack, tag, faces);
      assert FacesFrom(ts, stack + tag) == Under(stack + tag, faces);
      assert [] + Under(stack + tag, faces) + [] == Under(stack + tag, faces);
    }
  }

  lemma TagTokens(k: Kind, attrs: seq<Attr>, stack: seq<Tag>)
    ensures FacesFrom([Open(k, attrs)], stack) == [] && AfterAll([Open(k, attrs)], stack) == stack + [Tag(k, attrs)]
    ensures FacesFrom([Close(k)], stack + [Tag(k, attrs)]) == []
            && AfterAll([Close(k)], stack + [Tag(k, attrs)]) == stack
  {
    assert [Open(k, attrs)][1..] == [] && [Close(k)][1..] == [];
    assert (stack + [Tag(k, attrs)])[..|stack|] == stack;
  }

  lemma LooksWellFormed(ts: seq<Token>)
    requires WellFormed(ts)
    ensures Looks(ts, Faces(ts))
  {
    hide Under, FacesFrom, AfterAll, Scan;
    NoKinds();
    forall stack: seq<Tag> ensures FacesFrom(ts, stack) == Under(stack, Faces(ts)) && AfterAll(ts, stack) == stack {
      FacesThrough(ts, [], stack, []);
      WellFormedLeaves(ts, stack);
      assert ts + [] == ts && stack + [] == stack;
      assert FacesFrom([], stack) == [] by { NoFacesFrom(stack); }
      assert Under(stack, Faces(ts)) + [] == Under(stack, Faces(ts));
    }
  }

  lemma NoFacesFrom(stack: seq<Tag>)
    ensures FacesFrom([], stack) == []
  {
  }

  lemma WellFormedLeaves(ts: seq<Token>, stack: seq<Tag>)
    requires WellFormed(ts)
    ensures AfterAll(ts, stack) == stack && AfterAll(ts, []) == []
  {
    hide FacesFrom, Under;
    NoKinds();
    FacesThrough(ts, [], stack, []);
    assert AfterAll(ts, []) == [];
    assert stack + [] == stack;
    AfterAllInside(ts, stack, []);
  }

  lemma {:induction false} AfterAllInside(ts: seq<Token>, base: seq<Tag>, stack: seq<Tag>)
    requires Scan(ts, Kinds(stack)).Stack?
    ensures AfterAll(ts, base + stack) == base + AfterAll(ts, stack)
  {
    hide MayOpen;
    if ts != [] {
      AfterInside(ts[0], base, stack);
      assert Scan(ts[1..], Kinds(After(ts[0], stack))) == Scan(ts, Kinds(stack));
      AfterAllInside(ts[1..], base, After(ts[0], stack));
    }
  }

  lemma LooksText(text: string)
    ensures Looks(TextTokens(text), HtmlFaces.Bare(NonSpace(text)))
  {
    hide Looks;
    TextFaces(text);
    LooksWellFormed(TextTokens(text));
  }

  lemma LooksContent(c: Inline)
    requires Sound(c)
    ensures Looks(c.rich, Faces(c.rich)) && Looks(c.classic, Faces(c.classic))
  {
    hide Looks;
    LooksWellFormed(c.rich);
    LooksWellFormed(c.classic);
  }

  lemma FacesOfLook(ts: seq<Token>, faces: seq<Face>)
    requires Looks(ts, faces)
    ensures Faces(ts) == faces
  {
    UnderNone(faces);
  }

  // ---- The rich form --------------------------------------------------------------------------

  lemma {:induction false} RichItemsLook(items: seq<Inline>)
    requires AllSound(items)
    ensures Looks(RichItems(items), Under([Named(Kind.Li)], EachFace(items)))
  {
    hide Looks, SoundMarkup, Wrap, Faces, Under;
    UnderConcat([Named(Kind.Li)], [], []);
    if items == [] {
      LooksNothing();
    } else {
      assert Sound(items[0]);
      RichItemsLook(items[1..]);
      LooksContent(items[0]);
      LooksWrapped(Kind.Li, [], items[0].rich, Faces(items[0].rich));
      UnderConcat([Named(Kind.Li)], Faces(items[0].rich), EachFace(items[1..]));
      LooksBoth(Wrap(Kind.Li, [], items[0].rich), Under([Named(Kind.Li)], Faces(items[0].rich)), RichItems(items[1..]),
                Under([Named(Kind.Li)], EachFace(items[1..])));
    }
  }

  lemma {:induction false} RichCellsLook(row: seq<Cell>)
    requires CellsSound(row)
    ensures Looks(RichCells(row), CellFaces(row))
  {
    hide Looks, SoundMarkup, Wrap, Faces, Under, CellAttrs;
    if row == [] {
      LooksNothing();
    } else {
      var kind, c := if row[0].isHeader then Kind.Th else Kind.Td, row[0].content;
      assert row[0] in row;
      RichCellsLook(row[1..]);
      LooksContent(c);
      LooksWrapped(kind, CellAttrs(row[0]), c.rich, Faces(c.rich));
      LooksBoth(Wrap(kind, CellAttrs(row[0]), c.rich), Under([Tag(kind, CellAttrs(row[0]))], Faces(c.rich)),
                RichCells(row[1..]), CellFaces(row[1..]));
    }
  }

  lemma {:induction false} RichRowsLook(rows: seq<seq<Cell>>)
    requires RowsSound(rows)
    ensures Looks(RichRows(rows), RowFaces(rows))
  {
    hide Looks, Sound, Wrap, Under, RichCells, CellFaces;
    if rows == [] {
      LooksNothing();
    } else {
      assert CellsSound(rows[0]);
      RichCellsLook(rows[0]);
      RichRowsLook(rows[1..]);
      LooksWrapped(Kind.Tr, [], RichCells(rows[0]), CellFaces(rows[0]));
      LooksBoth(Wrap(Kind.Tr, [], RichCells(rows[0])), Under([Named(Kind.Tr)], CellFaces(rows[0])), RichRows(rows[1..]),
                RowFaces(rows[1..]));
    }
  }

  lemma RichTableLook(table: TableModel)
    requires BlockSound(TableBlock(table))
    ensures Looks(RichBlock(TableBlock(table)), RichFaces(TableBlock(table)))
  {
    hide Looks, SoundMarkup, Wrap, Under, Faces, RichRows, RowFaces;
    var caption :=
      if table.caption.Some? then Under([Named(Kind.Caption)], Faces(table.caption.value.rich)) else [];
    LooksNothing();
    NoFacesInNothing();
    UnderConcat([Named(Kind.Caption)], [], []);
    if table.caption.Some? {
      LooksContent(table.caption.value);
      LooksWrapped(Kind.Caption, [], table.caption.value.rich, Faces(table.caption.value.rich));
    }
    RichRowsLook(table.rows);
    LooksBoth(RichCaption(table.caption), caption, RichRows(table.rows), RowFaces(table.rows));
    LooksWrapped(Kind.Table, [Bordered, Compact], RichCaption(table.caption) + RichRows(table.rows),
                 caption + RowFaces(table.rows));
  }

  lemma RichBlockLook(b: Block)
    requires BlockSound(b)
    ensures Looks(RichBlock(b), RichFaces(b))
  {
    hide Looks, SoundMarkup, Wrap, Under, Faces, RichItems, EachFace, RowsSound, NonSpace, HtmlFaces.Bare;
    match b
    case ParagraphBlock(c) => RichContentLook(P, c);
    case HeadingBlock(level, c) => RichContentLook(H(level), c);
    case QuoteBlock(c) => RichContentLook(Kind.Blockquote, c);
    case FooterBlock(c) => RichContentLook(Kind.Footer, c);
    case PreBlock(text) =>
      LooksText(text);
      LooksWrapped(Kind.Pre, [], TextTokens(text), HtmlFaces.Bare(NonSpace(text)));
    case ListBlock(ordered, start, items) =>
      RichItemsLook(items);
      LooksWrapped(if ordered then Kind.Ol else Kind.Ul,
                   if ordered && start != 1 then [Valued(AttrName.Start, Decimal(start))] else [],
                   RichItems(items), Under([Named(Kind.Li)], EachFace(items)));
    case DividerBlock => RuleLook();
    case TableBlock(table) => RichTableLook(table);
  }

  lemma RichContentLook(k: Kind, c: Inline)
    requires Sound(c)
    ensures Looks(Wrap(k, [], c.rich), Under([Named(k)], Faces(c.rich)))
  {
    hide Looks, SoundMarkup, Wrap, Under, Faces;
    LooksContent(c);
    LooksWrapped(k, [], c.rich, Faces(c.rich));
  }

  lemma RuleLook()
    ensures Looks([Token.Hr], [])
  {
    assert [Token.Hr][1..] == [];
    forall stack: seq<Tag> ensures FacesFrom([Token.Hr], stack) == Under(stack, []) {
      UnderConcat(stack, [], []);
    }
  }

  /** For all sound blocks: every character of the rich form is inside exactly these elements, in this order. */
  lemma {:induction false} RenderRichLook(blocks: seq<Block>)
    requires BlocksSound(blocks)
    ensures Looks(RenderRich(blocks), RichLook(blocks))
  {
    hide Looks, BlockSound, RichBlock, RichFaces;
    if blocks == [] {
      LooksNothing();
    } else {
      assert BlockSound(blocks[0]);
      RichBlockLook(blocks[0]);
      RenderRichLook(blocks[1..]);
      LooksBoth(RichBlock(blocks[0]), RichFaces(blocks[0]), RenderRich(blocks[1..]), RichLook(blocks[1..]));
    }
  }

  // ---- Joined parts -----------------------------------------------------------------------------

  ghost predicate PartsLook(parts: seq<seq<Token>>, faces: seq<seq<Face>>) {
    |parts| == |faces| && forall i | 0 <= i < |parts| :: Looks(parts[i], faces[i])
  }

  lemma PartsLookBoth(a: seq<seq<Token>>, x: seq<seq<Face>>, b: seq<seq<Token>>, y: seq<seq<Face>>)
    requires PartsLook(a, x) && PartsLook(b, y)
    ensures PartsLook(a + b, x + y)
  {
    hide Looks;
  }

  lemma OnePartLooks(part: seq<Token>, faces: seq<Face>)
    requires Looks(part, faces)
    ensures PartsLook([part], [faces])
  {
    hide Looks;
  }

  lemma {:induction false} JoinLooks(parts: seq<seq<Token>>, faces: seq<seq<Face>>, separator: string)
    requires PartsLook(parts, faces)
    ensures Looks(Join(parts, separator), Between(faces, separator))
    decreases |parts|
  {
    hide Looks, NonSpace, HtmlFaces.Bare;
    if parts == [] {
      LooksNothing();
    } else if |parts| > 1 {
      JoinLooks(parts[1..], faces[1..], separator);
      LooksText(separator);
      var middle := HtmlFaces.Bare(NonSpace(separator));
      LooksBoth(parts[0], faces[0], TextTokens(separator), middle);
      LooksBoth(parts[0] + TextTokens(separator), faces[0] + middle, Join(parts[1..], separator),
                Between(faces[1..], separator));
    }
  }

  // A separator nobody sees.
  lemma {:induction false} BetweenBlank(faces: seq<seq<Face>>, separator: string)
    requires NonSpace(separator) == []
    ensures Between(faces, separator) == Flat(faces)
  {
    if |faces| == 1 {
      assert faces[1..] == [];
      assert faces[0] + [] == faces[0];
    } else if faces != [] {
      BetweenBlank(faces[1..], separator);
      assert HtmlFaces.Bare([]) == [];
      assert faces[0] + [] == faces[0];
    }
  }

  lemma {:induction false} NonEmptyLooks(parts: seq<seq<Token>>, faces: seq<seq<Face>>) returns (kept: seq<seq<Face>>)
    requires PartsLook(parts, faces)
    ensures PartsLook(NonEmpty(parts), kept) && Flat(kept) == Flat(faces)
    decreases |parts|
  {
    hide Looks;
    if parts == [] {
      kept := [];
    } else {
      var rest := NonEmptyLooks(parts[1..], faces[1..]);
      if parts[0] == [] {
        NothingLooks(faces[0]);
        kept := rest;
        assert [] + NonEmpty(parts[1..]) == NonEmpty(parts[1..]);
        assert [] + Flat(faces[1..]) == Flat(faces[1..]);
      } else {
        kept := [faces[0]] + rest;
        PartsLookBoth([parts[0]], [faces[0]], NonEmpty(parts[1..]), rest);
        assert kept[1..] == rest;
      }
    }
  }

  lemma NothingLooks(faces: seq<Face>)
    requires Looks([], faces)
    ensures faces == []
  {
    assert FacesFrom([], []) == Under([], faces);
  }

  lemma Separators()
    ensures NonSpace("\n") == [] == NonSpace("\n\n")
    ensures NonSpace(MIDDLE_DOT) == DOT
  {
    assert "\n\n"[1..] == "\n" && "\n"[1..] == "";
    assert MIDDLE_DOT[1..] == ['\U{b7}', ' '] && ['\U{b7}', ' '][1..] == [' '] && [' '][1..] == [];
    assert NonSpace([' ']) == [];
    assert NonSpace(['\U{b7}', ' ']) == ['\U{b7}'] + [];
  }

  // Parts without visible separators, empty ones left out or not.
  lemma FlatJoin(parts: seq<seq<Token>>, faces: seq<seq<Face>>, separator: string)
    requires PartsLook(parts, faces) && NonSpace(separator) == []
    ensures Looks(Join(parts, separator), Flat(faces)) && Looks(Join(NonEmpty(parts), separator), Flat(faces))
  {
    hide PartsLook, Looks, NonSpace;
    JoinLooks(parts, faces, separator);
    BetweenBlank(faces, separator);
    var kept := NonEmptyLooks(parts, faces);
    JoinLooks(NonEmpty(parts), kept, separator);
    BetweenBlank(kept, separator);
  }

  // ---- The classic form -------------------------------------------------------------------------

  lemma BoldLooks(c: Inline)
    requires Sound(c)
    ensures Looks(ClassicBold(c), BoldFaces(c))
  {
    hide Looks, SoundMarkup, Wrap, Under, Faces;
    LooksContent(c);
    LooksWrapped(HtmlTokens.B, [], c.classic, Faces(c.classic));
  }

  lemma LeadLooks(lead: string, ts: seq<Token>, faces: seq<Face>)
    requires Looks(ts, faces)
    ensures Looks(TextTokens(lead) + ts, HtmlFaces.Bare(NonSpace(lead)) + faces)
  {
    hide Looks;
    LooksText(lead);
    LooksBoth(TextTokens(lead), HtmlFaces.Bare(NonSpace(lead)), ts, faces);
  }

  lemma BlankEnd(text: string)
    ensures NonSpace(text + " ") == NonSpace(text)
  {
    NonSpaceConcat(text, " ");
    assert " "[1..] == "";
    assert NonSpace(text) + [] == NonSpace(text);
  }

  lemma {:induction false} ItemsLook(ordered: bool, start: int, items: seq<Inline>)
    requires AllSound(items)
    ensures PartsLook(ClassicItems(ordered, start, items), AllItemFaces(ordered, start, items))
    decreases items
  {
    hide Looks, PartsLook, Sound, TextTokens, ItemFaces, AllItemFaces;
    if items == [] {
      assert AllItemFaces(ordered, start, []) == [];
      NoPartsLook();
    } else {
      var marker := if ordered then Decimal(start) + ". " else BULLET;
      assert Sound(items[0]);
      ItemsLook(ordered, start + 1, items[1..]);
      ItemLooks(ordered, start, items[0]);
      FirstItemFaces(ordered, start, items);
      RowLookNext(TextTokens(marker) + items[0].classic, ItemFaces(ordered, start, items[0]),
                  ClassicItems(ordered, start + 1, items[1..]), AllItemFaces(ordered, start + 1, items[1..]));
    }
  }

  lemma FirstItemFaces(ordered: bool, start: int, items: seq<Inline>)
    requires items != []
    ensures AllItemFaces(ordered, start, items)
         == [ItemFaces(ordered, start, items[0])] + AllItemFaces(ordered, start + 1, items[1..])
  {
    hide ItemFaces;
  }

  lemma ItemLooks(ordered: bool, number: int, item: Inline)
    requires Sound(item)
    ensures Looks(TextTokens(if ordered then Decimal(number) + ". " else BULLET) + item.classic,
                  ItemFaces(ordered, number, item))
  {
    hide Looks, SoundMarkup, Faces, TextTokens, HtmlFaces.Bare, NonSpace;
    LooksContent(item);
    LeadLooks(if ordered then Decimal(number) + ". " else BULLET, item.classic, Faces(item.classic));
    MarkerInk(number);
  }

  lemma MarkerInk(number: int)
    ensures NonSpace(Decimal(number) + ". ") == NonSpace(Decimal(number) + ".") && NonSpace(BULLET) == ['\U{2022}']
  {
    BlankEnd(Decimal(number) + ".");
    assert Decimal(number) + "." + " " == Decimal(number) + ". ";
    assert BULLET[1..] == [' '] && [' '][1..] == [];
    assert NonSpace([' ']) == [];
  }

  lemma {:induction false} QuoteLooks(ts: seq<Token>, stack: seq<Tag>)
    ensures FacesFrom(QuoteLines(ts), stack) == QuotedFaces(ts, stack)
            && AfterAll(QuoteLines(ts), stack) == AfterAll(ts, stack)
  {
    hide TextTokens;
    if ts != [] {
      var first := if ts[0] == Ch('\n') then TextTokens("\n> ") else [ts[0]];
      QuoteLooks(ts[1..], After(ts[0], stack));
      FacesFromConcat(first, QuoteLines(ts[1..]), stack);
      QuoteMarkFaces(stack);
      assert [ts[0]][1..] == [];
      assert FaceOf(ts[0], stack) + [] == FaceOf(ts[0], stack);
    }
  }

  lemma QuoteMarkFaces(stack: seq<Tag>)
    ensures FacesFrom(TextTokens("\n> "), stack) == [Face('>', stack)] && AfterAll(TextTokens("\n> "), stack) == stack
  {
    LooksText("\n> ");
    assert "\n> "[1..] == "> " && "> "[1..] == " " && " "[1..] == "";
    assert NonSpace("\n> ") == NonSpace("> ") == ">" + NonSpace(" ") == ">";
    assert stack + [] == stack;
    assert Under(stack, HtmlFaces.Bare(">")) == [Face('>', stack)];
  }

  // Quoted content, seen from outside.
  lemma {:induction false} QuotedUnder(ts: seq<Token>, base: seq<Tag>, stack: seq<Tag>)
    requires Scan(ts, Kinds(stack)).Stack?
    ensures QuotedFaces(ts, base + stack) == Under(base, QuotedFaces(ts, stack))
  {
    hide MayOpen, Under;
    UnderConcat(base, [], []);
    if ts != [] {
      AfterInside(ts[0], base, stack);
      assert Scan(ts[1..], Kinds(After(ts[0], stack))) == Scan(ts, Kinds(stack));
      QuotedUnder(ts[1..], base, After(ts[0], stack));
      FaceInside(ts[0], base, stack);
      UnderOne(base, Face('>', stack));
      UnderConcat(base, if ts[0] == Ch('\n') then [Face('>', stack)] else FaceOf(ts[0], stack),
                  QuotedFaces(ts[1..], After(ts[0], stack)));
    }
  }

  lemma QuotedContentLooks(c: Inline)
    requires Sound(c)
    ensures Looks(QuoteLines(c.classic), QuotedFaces(c.classic, []))
  {
    hide Under, FacesFrom, AfterAll, QuotedFaces, QuoteLines, Scan;
    NoKinds();
    forall stack: seq<Tag>
      ensures FacesFrom(QuoteLines(c.classic), stack) == Under(stack, QuotedFaces(c.classic, []))
              && AfterAll(QuoteLines(c.classic), stack) == stack
    {
      QuoteLooks(c.classic, stack);
      WellFormedLeaves(c.classic, stack);
      QuotedUnder(c.classic, stack, []);
      assert stack + [] == stack;
    }
  }

  lemma LabelLooks(name: string, ts: seq<Token>, faces: seq<Face>)
    requires Looks(ts, faces)
    ensures Looks(Wrap(HtmlTokens.B, [], TextTokens(name + ":")) + TextTokens(" ") + ts,
                  Under([Named(HtmlTokens.B)], HtmlFaces.Bare(NonSpace(name + ":"))) + faces)
  {
    hide Looks, Wrap, Under, HtmlFaces.Bare;
    var bold, shown := Wrap(HtmlTokens.B, [], TextTokens(name + ":")), HtmlFaces.Bare(NonSpace(name + ":"));
    LooksText(name + ":");
    LooksWrapped(HtmlTokens.B, [], TextTokens(name + ":"), shown);
    BlankLooks();
    LooksBoth(bold, Under([Named(HtmlTokens.B)], shown), TextTokens(" "), []);
    LooksBoth(bold + TextTokens(" "), Under([Named(HtmlTokens.B)], shown) + [], ts, faces);
    assert Under([Named(HtmlTokens.B)], shown) + [] == Under([Named(HtmlTokens.B)], shown);
  }

  lemma BlankLooks()
    ensures Looks(TextTokens(" "), []) && Looks(TextTokens("\n"), [])
  {
    hide Looks;
    LooksText(" ");
    LooksText("\n");
    assert " "[1..] == "" && "\n"[1..] == "";
    assert NonSpace(" ") == [] == NonSpace("\n");
    NothingBare();
  }

  lemma {:induction false} PairsLook(row: seq<Cell>, index: nat)
    requires CellsSound(row)
    ensures PartsLook(KeyValuePairs(row, index), PairFaces(row, index))
    decreases |row| - index
  {
    hide Looks, SoundMarkup, Wrap, TextTokens, Faces, Under, HtmlFaces.Bare, NonSpace, PartsLook;
    if index < |row| {
      var key, value := row[index].content, CellAt(row, index + 1).content;
      var name := if key.text == [] then "Field " + Decimal(index / 2 + 1) else key.text;
      var bold := Under([Named(HtmlTokens.B)], HtmlFaces.Bare(NonSpace(name + ":")));
      PlainTextSound("");
      assert row[index] in row && Sound(value);
      PairsLook(row, index + 2);
      LooksContent(key);
      LooksContent(value);
      LabelLooks(name, value.classic, Faces(value.classic));
      OnePartLooks(key.classic, Faces(key.classic));
      var labelled := Wrap(HtmlTokens.B, [], TextTokens(name + ":")) + TextTokens(" ") + value.classic;
      OnePartLooks(labelled, bold + Faces(value.classic));
      NoPartsLook();
      var own := if value.text != [] then [labelled] else if key.text != [] then [key.classic] else [];
      var faces :=
        if value.text != [] then [bold + Faces(value.classic)] else if key.text != [] then [Faces(key.classic)] else [];
      assert KeyValuePairs(row, index) == own + KeyValuePairs(row, index + 2);
      PartsLookBoth(own, faces, KeyValuePairs(row, index + 2), PairFaces(row, index + 2));
    } else {
      NoPartsLook();
    }
  }

  lemma NoPartsLook()
    ensures PartsLook([], [])
  {
  }

  lemma DottedLook(parts: seq<seq<Token>>, faces: seq<seq<Face>>)
    requires PartsLook(parts, faces)
    ensures Looks(Join(parts, MIDDLE_DOT), Between(faces, DOT))
  {
    hide PartsLook, Looks, NonSpace;
    Separators();
    assert NonSpace(DOT) == DOT by { DotIsVisible(); }
    JoinLooks(parts, faces, MIDDLE_DOT);
    BetweenSame(faces, MIDDLE_DOT, DOT);
  }

  lemma DotIsVisible()
    ensures NonSpace(DOT) == DOT
  {
    assert DOT[1..] == [];
  }

  lemma {:induction false} BetweenSame(faces: seq<seq<Face>>, a: string, b: string)
    requires NonSpace(a) == NonSpace(b)
    ensures Between(faces, a) == Between(faces, b)
  {
    if |faces| > 1 {
      BetweenSame(faces[1..], a, b);
    }
  }

  lemma RowLookNext(row: seq<Token>, faces: seq<Face>, rest: seq<seq<Token>>, others: seq<seq<Face>>)
    requires Looks(row, faces) && PartsLook(rest, others)
    ensures PartsLook([row] + rest, [faces] + others)
  {
    hide Looks, PartsLook;
    OnePartLooks(row, faces);
    PartsLookBoth([row], [faces], rest, others);
  }

  lemma {:induction false} KeyValueRowsLook(rows: seq<seq<Cell>>)
    requires RowsSound(rows)
    ensures PartsLook(KeyValueRows(rows), KeyValueFaces(rows))
  {
    hide Looks, PartsLook, Sound, Join, KeyValuePairs, PairFaces, Between;
    if rows == [] {
      NoPartsLook();
    } else {
      assert CellsSound(rows[0]);
      PairsLook(rows[0], 0);
      DottedLook(KeyValuePairs(rows[0], 0), PairFaces(rows[0], 0));
      KeyValueRowsLook(rows[1..]);
      RowLookNext(Join(KeyValuePairs(rows[0], 0), MIDDLE_DOT), Between(PairFaces(rows[0], 0), DOT),
                  KeyValueRows(rows[1..]), KeyValueFaces(rows[1..]));
    }
  }

  lemma {:induction false} TextCellsLook(row: seq<Cell>)
    requires CellsSound(row)
    ensures PartsLook(TextCells(row), TextCellFaces(row))
  {
    hide Looks, PartsLook, SoundMarkup, Faces;
    NoPartsLook();
    if row != [] {
      assert row[0] in row;
      TextCellsLook(row[1..]);
      LooksContent(row[0].content);
      RowLookNext(row[0].content.classic, Faces(row[0].content.classic), TextCells(row[1..]), TextCellFaces(row[1..]));
      assert [] + TextCells(row[1..]) == TextCells(row[1..]) && [] + TextCellFaces(row[1..]) == TextCellFaces(row[1..]);
    }
  }

  lemma {:induction false} GridRowsLook(rows: seq<seq<Cell>>)
    requires RowsSound(rows)
    ensures PartsLook(GridRows(rows), GridFaces(rows))
  {
    hide Looks, PartsLook, Sound, Join, TextCells, TextCellFaces, Between;
    if rows == [] {
      NoPartsLook();
    } else {
      assert CellsSound(rows[0]);
      TextCellsLook(rows[0]);
      DottedLook(TextCells(rows[0]), TextCellFaces(rows[0]));
      GridRowsLook(rows[1..]);
      RowLookNext(Join(TextCells(rows[0]), MIDDLE_DOT), Between(TextCellFaces(rows[0]), DOT), GridRows(rows[1..]),
                  GridFaces(rows[1..]));
    }
  }

  lemma {:induction false} FieldsLook(
    row: seq<Cell>, places: seq<Layout.Rect>, headers: seq<Cell>, headerPlaces: seq<Layout.Rect>)
    requires |row| == |places| && |headers| == |headerPlaces| && CellsSound(row)
    ensures PartsLook(RecordFields(row, places, headers, headerPlaces), FieldFaces(row, places, headers, headerPlaces))
  {
    hide Looks, PartsLook, SoundMarkup, Faces, FieldName, TextTokens, HtmlFaces.Bare, NonSpace;
    NoPartsLook();
    if row != [] {
      var c, name := row[0].content, FieldName(headers, headerPlaces, places[0].column);
      var later, others := RecordFields(row[1..], places[1..], headers, headerPlaces),
                           FieldFaces(row[1..], places[1..], headers, headerPlaces);
      assert row[0] in row;
      FieldsLook(row[1..], places[1..], headers, headerPlaces);
      LooksContent(c);
      LeadLooks(name + ": ", c.classic, Faces(c.classic));
      BlankEnd(name + ":");
      assert name + ":" + " " == name + ": ";
      RowLookNext(TextTokens(name + ": ") + c.classic, HtmlFaces.Bare(NonSpace(name + ":")) + Faces(c.classic), later,
                  others);
      assert [] + later == later && [] + others == others;
    }
  }

  lemma {:induction false} TitleLooks(row: seq<Cell>, places: seq<Layout.Rect>)
    requires |row| == |places| && CellsSound(row)
    ensures Looks(RecordTitle(row, places), TitleFaces(row, places))
  {
    hide Looks, SoundMarkup, ClassicBold, Under;
    if row == [] {
      LooksNothing();
    } else {
      assert row[0] in row;
      TitleLooks(row[1..], places[1..]);
      BoldLooks(row[0].content);
      NoFacesInNothing();
      LooksNothing();
      UnderConcat([Named(HtmlTokens.B)], [], []);
    }
  }

  lemma {:induction false} RecordRowsLook(
    rows: seq<seq<Cell>>, places: seq<seq<Layout.Rect>>, headers: seq<Cell>, headerPlaces: seq<Layout.Rect>)
    requires |rows| == |places| && |headers| == |headerPlaces|
    requires forall i | 0 <= i < |rows| :: |rows[i]| == |places[i]|
    requires RowsSound(rows)
    ensures PartsLook(RecordRows(rows, places, headers, headerPlaces), RecordFaces(rows, places, headers, headerPlaces))
  {
    hide Looks, PartsLook, Sound, Join, NonEmpty, RecordTitle, TitleFaces, RecordFields, FieldFaces, Between;
    if rows == [] {
      NoPartsLook();
    } else {
      assert CellsSound(rows[0]);
      var title, fields := RecordTitle(rows[0], places[0]), RecordFields(rows[0], places[0], headers, headerPlaces);
      var x, y := TitleFaces(rows[0], places[0]), FieldFaces(rows[0], places[0], headers, headerPlaces);
      TitleLooks(rows[0], places[0]);
      FieldsLook(rows[0], places[0], headers, headerPlaces);
      DottedLook(fields, y);
      RecordLooks(title, x, Join(fields, MIDDLE_DOT), Between(y, DOT));
      RecordRowsLook(rows[1..], places[1..], headers, headerPlaces);
      RowLookNext(Join(NonEmpty([title, Join(fields, MIDDLE_DOT)]), "\n"), x + Between(y, DOT),
                  RecordRows(rows[1..], places[1..], headers, headerPlaces),
                  RecordFaces(rows[1..], places[1..], headers, headerPlaces));
    }
  }

  lemma RecordLooks(title: seq<Token>, x: seq<Face>, fields: seq<Token>, y: seq<Face>)
    requires Looks(title, x) && Looks(fields, y)
    ensures Looks(Join(NonEmpty([title, fields]), "\n"), x + y)
  {
    hide Looks, PartsLook, NonEmpty, Join, NonSpace;
    OnePartLooks(title, x);
    OnePartLooks(fields, y);
    PartsLookBoth([title], [x], [fields], [y]);
    assert [title] + [fields] == [title, fields] && [x] + [y] == [x, y];
    Separators();
    FlatJoin([title, fields], [x, y], "\n");
    TwoFlat(x, y);
  }

  lemma TwoFlat(x: seq<Face>, y: seq<Face>)
    ensures Flat([x, y]) == x + y
  {
    assert [x, y][1..] == [y] && [y][1..] == [];
    assert Flat([y]) == y + Flat([]) == y;
  }

  lemma TableLooks(table: TableModel)
    requires RowsSound(table.rows)
    ensures Looks(ClassicTable(table.(caption := None)), TableFaces(table))
  {
    hide Looks, PartsLook, Sound, Join, Flat, KeyValueRows, KeyValueFaces, RecordRows, RecordFaces, GridRows, GridFaces,
         NonSpace;
    Separators();
    if table.kind == KeyValue {
      KeyValueRowsLook(table.rows);
      FlatJoin(KeyValueRows(table.rows), KeyValueFaces(table.rows), "\n");
      assert [] + Join(KeyValueRows(table.rows), "\n") == Join(KeyValueRows(table.rows), "\n");
    } else if ShownAsRecords(table) {
      var places := Layout.Place(TableSpans(table.rows));
      var records := RecordRows(table.rows[1..], places[1..], table.rows[0], places[0]);
      RecordRowsLook(table.rows[1..], places[1..], table.rows[0], places[0]);
      FlatJoin(records, RecordFaces(table.rows[1..], places[1..], table.rows[0], places[0]), "\n\n");
      assert [] + Join(records, "\n\n") == Join(records, "\n\n");
    } else {
      GridRowsLook(table.rows);
      FlatJoin(GridRows(table.rows), GridFaces(table.rows), "\n");
      assert [] + Join(GridRows(table.rows), "\n") == Join(GridRows(table.rows), "\n");
    }
  }

  lemma CaptionLooks(caption: Option<Inline>)
    requires caption.Some? ==> Sound(caption.value)
    ensures Looks(ClassicCaption(caption), if caption.Some? then BoldFaces(caption.value) else [])
  {
    hide Looks, SoundMarkup, ClassicBold, Under, TextTokens;
    LooksNothing();
    NoFacesInNothing();
    UnderConcat([Named(HtmlTokens.B)], [], []);
    if caption.Some? {
      BoldLooks(caption.value);
      BlankLooks();
      LooksBoth(ClassicBold(caption.value), BoldFaces(caption.value), TextTokens("\n"), []);
      assert BoldFaces(caption.value) + [] == BoldFaces(caption.value);
    }
  }

  lemma ClassicBlockLook(b: Block)
    requires BlockSound(b)
    ensures Looks(ClassicBlock(b), ClassicFaces(b))
  {
    hide Looks, SoundMarkup, Wrap, Under, Faces, ClassicTable, ClassicCaption, TableFaces, ClassicItems, AllItemFaces,
         Flat, Join, QuoteLines, QuotedFaces, ClassicBold, BoldFaces, RowsSound, NonSpace, HtmlFaces.Bare, TextTokens,
         PartsLook;
    match b
    case ParagraphBlock(c) => LooksContent(c);
    case FooterBlock(c) => LooksContent(c);
    case HeadingBlock(_, c) => BoldLooks(c);
    case PreBlock(text) =>
      LooksText(text);
      LooksWrapped(Kind.Pre, [], TextTokens(text), HtmlFaces.Bare(NonSpace(text)));
    case ListBlock(ordered, start, items) =>
      ItemsLook(ordered, start, items);
      Separators();
      FlatJoin(ClassicItems(ordered, start, items), AllItemFaces(ordered, start, items), "\n");
    case QuoteBlock(c) =>
      QuotedContentLooks(c);
      LeadLooks("> ", QuoteLines(c.classic), QuotedFaces(c.classic, []));
      QuoteMarkInk();
    case DividerBlock =>
      LooksText(seq(8, _ => '\U{2500}'));
      DividerInk();
    case TableBlock(table) =>
      TableLooks(table);
      CaptionLooks(table.caption);
      CaptionThenRows(table);
      LooksBoth(ClassicCaption(table.caption), if table.caption.Some? then BoldFaces(table.caption.value) else [],
                ClassicTable(table.(caption := None)), TableFaces(table));
  }

  lemma QuoteMarkInk()
    ensures NonSpace("> ") == ">"
  {
    assert "> "[1..] == " " && " "[1..] == "";
    assert NonSpace(" ") == [];
  }

  lemma {:induction false} VisibleInk(text: string)
    requires forall c | c in text :: !IsSpace(c)
    ensures NonSpace(text) == text
  {
    if text != [] {
      VisibleInk(text[1..]);
    }
  }

  lemma DividerInk()
    ensures NonSpace(seq(8, _ => '\U{2500}')) == seq(8, _ => '\U{2500}')
  {
    VisibleInk(seq(8, _ => '\U{2500}'));
  }

  function BlockFaces(blocks: seq<Block>): seq<seq<Face>> {
    if blocks == [] then [] else [ClassicFaces(blocks[0])] + BlockFaces(blocks[1..])
  }

  lemma {:induction false} ClassicBlocksLook(blocks: seq<Block>)
    requires BlocksSound(blocks)
    ensures PartsLook(ClassicBlocks(blocks), BlockFaces(blocks)) && Flat(BlockFaces(blocks)) == ClassicLook(blocks)
  {
    hide Looks, PartsLook, BlockSound, ClassicBlock, ClassicFaces;
    if blocks == [] {
      NoPartsLook();
    } else {
      assert BlockSound(blocks[0]);
      ClassicBlockLook(blocks[0]);
      ClassicBlocksLook(blocks[1..]);
      RowLookNext(ClassicBlock(blocks[0]), ClassicFaces(blocks[0]), ClassicBlocks(blocks[1..]),
                  BlockFaces(blocks[1..]));
      assert ([ClassicFaces(blocks[0])] + BlockFaces(blocks[1..]))[1..] == BlockFaces(blocks[1..]);
    }
  }

  /** For all sound blocks: the classic form shows exactly these characters, each inside exactly these elements. */
  lemma RenderClassicLook(blocks: seq<Block>)
    requires BlocksSound(blocks)
    ensures Faces(RenderClassic(blocks)) == ClassicLook(blocks)
  {
    hide Looks, PartsLook, ClassicBlocks, BlockFaces, ClassicLook, Join, NonEmpty, Faces, Alike, Flat, NonSpace;
    var joined := Join(NonEmpty(ClassicBlocks(blocks)), "\n\n");
    ClassicBlocksLook(blocks);
    Separators();
    FlatJoin(ClassicBlocks(blocks), BlockFaces(blocks), "\n\n");
    FacesOfLook(joined, ClassicLook(blocks));
    TrimAlike(joined);
    AlikeFaces(joined, Trim(joined));
  }

  // ---- Documents --------------------------------------------------------------------------------

  /** Content of a block: its characters look as the tree says. */
  lemma ContentLook(nodes: seq<Node>, readers: Readers)
    requires InlineInk(nodes, readers, true) != []
    ensures Faces(InlineOf(nodes, readers).rich) == ContentFaces(nodes, true, true, readers)
    ensures Faces(InlineOf(nodes, readers).classic) == ContentFaces(nodes, true, false, readers)
  {
    hide ParseInline, InlineInk, ContentFaces, Faces;
    ContentAnywhere(nodes, FREE, 0, readers);
    FacesOfInline(nodes, FREE, 0, true, true, true, readers);
    FacesOfInline(nodes, FREE, 0, true, true, false, readers);
  }

  /**
   * For every document that is sent whole: both forms show exactly the blocks
   * read off the tree, every character inside the elements its block and its
   * content call for.
   */
  lemma LookOfDocument(children: seq<Node>, sourceTruncated: bool, domTruncated: bool, readers: Readers)
    requires RenderDocument(children, sourceTruncated, domTruncated, readers).reason != Some(InputLimit)
    ensures var r, blocks := RenderDocument(children, sourceTruncated, domTruncated, readers),
                             TreeBlocks(children, [], readers);
            && Faces(r.classic) == ClassicLook(blocks)
            && (r.rich.Some? ==> Faces(r.rich.value) == RichLook(blocks))
  {
    hide ParseBlocks, RenderClassic, RenderRich, StatsOf, HasLinks, TreeBlocks, BlocksSound, Faces, ClassicLook,
         RichLook,
         Looks;
    UntruncatedIsWhole(children, sourceTruncated, domTruncated, readers);
    var whole := WholeDocument(children, readers);
    ParseBlocksTree(children, FREE, 0, readers);
    RenderClassicLook(whole);
    RenderRichLook(whole);
    FacesOfLook(RenderRich(whole), RichLook(whole));
  }
}
