/**
 * What the classic form shows. It adds markers, labels and separators, but no
 * visible character of the blocks is lost or moved; only the header row of a
 * table of records is given up, for labels of the fields below it.
 */
module HtmlClassicInk {
  import opened HtmlTokens
  import opened HtmlNormalize
  import opened HtmlLinks
  import opened HtmlDom
  import opened HtmlInline
  import opened HtmlBlocks
  import opened HtmlBlockLaws
  import opened HtmlRender
  import opened HtmlRenderLaws
  import opened HtmlInk
  import opened HtmlRuns
  import opened HtmlShown
  import opened HtmlWhole
  import Layout = TableLayout

  // ---- Subsequences ---------------------------------------------------------------

  // All characters of `a` occur in `b`, in their order.
  predicate Within(a: string, b: string) {
    if a == [] then true
    else if b == [] then false
    else if a[0] == b[0] then Within(a[1..], b[1..])
    else Within(a, b[1..])
  }

  lemma {:induction false} WithinWithoutFirst(a: string, b: string)
    requires a != [] && Within(a, b)
    ensures Within(a[1..], b)
    decreases |a| + |b|, 0
  {
    if a[0] == b[0] {
      WithinMore(a[1..], b[1..], b[0]);
      assert [b[0]] + b[1..] == b;
    } else {
      WithinWithoutFirst(a, b[1..]);
      WithinMore(a[1..], b[1..], b[0]);
      assert [b[0]] + b[1..] == b;
    }
  }

  lemma {:induction false} WithinMore(a: string, b: string, c: char)
    requires Within(a, b)
    ensures Within(a, [c] + b)
    decreases |a| + |b|, 1
  {
    assert ([c] + b)[1..] == b;
    if a != [] && a[0] == c {
      WithinWithoutFirst(a, b);
    }
  }

  lemma {:induction false} WithinTransitive(a: string, b: string, c: string)
    requires Within(a, b) && Within(b, c)
    ensures Within(a, c)
    decreases |c|
  {
    if a != [] {
      if b[0] == c[0] {
        WithinTransitive(if a[0] == b[0] then a[1..] else a, b[1..], c[1..]);
      } else {
        WithinTransitive(a, b, c[1..]);
        WithinMore(a, c[1..], c[0]);
        assert [c[0]] + c[1..] == c;
      }
    }
  }

  lemma {:induction false} WithinConcat(a: string, b: string, x: string, y: string)
    requires Within(a, b) && Within(x, y)
    ensures Within(a + x, b + y)
    decreases |b|
  {
    if b == [] {
      assert a + x == x && b + y == y;
    } else {
      assert (b + y)[0] == b[0] && (b + y)[1..] == b[1..] + y;
      assert [b[0]] + (b[1..] + y) == b + y;
      if a == [] {
        WithinConcat(a, b[1..], x, y);
        WithinMore(a + x, b[1..] + y, b[0]);
      } else if a[0] == b[0] {
        assert (a + x)[0] == a[0] && (a + x)[1..] == a[1..] + x;
        WithinConcat(a[1..], b[1..], x, y);
      } else {
        WithinConcat(a, b[1..], x, y);
        WithinMore(a + x, b[1..] + y, b[0]);
      }
    }
  }

  lemma {:induction false} WithinItself(a: string)
    ensures Within(a, a)
  {
    if a != [] {
      WithinItself(a[1..]);
    }
  }

  // ---- Joined parts ---------------------------------------------------------------

  /** `ts` shows all of `ink`, in order, perhaps between other characters. */
  ghost predicate Keeps(ts: seq<Token>, ink: string) {
    Within(ink, Visible(ts))
  }

  lemma KeepsBoth(a: seq<Token>, x: string, b: seq<Token>, y: string)
    requires Keeps(a, x) && Keeps(b, y)
    ensures Keeps(a + b, x + y)
  {
    VisibleConcat(a, b);
    WithinConcat(x, Visible(a), y, Visible(b));
  }

  lemma KeepsBehind(lead: seq<Token>, ts: seq<Token>, ink: string)
    requires Keeps(ts, ink)
    ensures Keeps(lead + ts, ink)
  {
    KeepsBoth(lead, [], ts, ink);
    assert [] + ink == ink;
  }

  lemma KeepsContent(c: Inline)
    requires Sound(c)
    ensures Keeps(c.classic, NonSpace(c.text)) && Keeps(ClassicBold(c), NonSpace(c.text))
  {
    WithinItself(NonSpace(c.text));
    VisibleOfWrap(HtmlTokens.B, [], c.classic);
  }

  lemma VisibleOfWrap(k: Kind, attrs: seq<Attr>, ts: seq<Token>)
    ensures Visible(Wrap(k, attrs, ts)) == Visible(ts)
  {
    VisibleConcat([Open(k, attrs)], ts);
    VisibleConcat([Open(k, attrs)] + ts, [Close(k)]);
    assert [] + Visible(ts) + [] == Visible(ts);
  }

  function PartsInk(parts: seq<seq<Token>>): string {
    if parts == [] then [] else Visible(parts[0]) + PartsInk(parts[1..])
  }

  lemma {:induction false} PartsInkConcat(a: seq<seq<Token>>, b: seq<seq<Token>>)
    ensures PartsInk(a + b) == PartsInk(a) + PartsInk(b)
  {
    if a == [] {
      assert a + b == b;
    } else {
      assert (a + b)[0] == a[0] && (a + b)[1..] == a[1..] + b;
      PartsInkConcat(a[1..], b);
      assert Visible(a[0]) + (PartsInk(a[1..]) + PartsInk(b)) == Visible(a[0]) + PartsInk(a[1..]) + PartsInk(b);
    }
  }

  lemma OnePartInk(part: seq<Token>)
    ensures PartsInk([part]) == Visible(part)
  {
    assert [part][1..] == [];
    assert Visible(part) + [] == Visible(part);
  }

  lemma {:induction false} JoinKeeps(parts: seq<seq<Token>>, separator: string, ink: string)
    requires Within(ink, PartsInk(parts))
    ensures Keeps(Join(parts, separator), ink)
  {
    JoinKeepsParts(parts, separator);
    WithinTransitive(ink, PartsInk(parts), Visible(Join(parts, separator)));
  }

  lemma {:induction false} JoinKeepsParts(parts: seq<seq<Token>>, separator: string)
    ensures Keeps(Join(parts, separator), PartsInk(parts))
  {
    if |parts| == 1 {
      assert parts == [parts[0]];
      OnePartInk(parts[0]);
      WithinItself(PartsInk(parts));
    } else if parts != [] {
      JoinKeepsParts(parts[1..], separator);
      var rest := Join(parts[1..], separator);
      WithinItself(Visible(parts[0]));
      KeepsBehind(TextTokens(separator), rest, PartsInk(parts[1..]));
      KeepsBoth(parts[0], Visible(parts[0]), TextTokens(separator) + rest, PartsInk(parts[1..]));
      assert parts[0] + (TextTokens(separator) + rest) == parts[0] + TextTokens(separator) + rest;
    }
  }

  lemma {:induction false} NonEmptyInk(parts: seq<seq<Token>>)
    ensures PartsInk(NonEmpty(parts)) == PartsInk(parts)
  {
    if parts != [] {
      NonEmptyInk(parts[1..]);
      if parts[0] != [] {
        var rest := NonEmpty(parts[1..]);
        assert ([parts[0]] + rest)[1..] == rest;
      } else {
        assert NonEmpty(parts) == NonEmpty(parts[1..]);
      }
    }
  }

  // One more part in front.
  lemma PartInFront(part: seq<Token>, parts: seq<seq<Token>>, x: string, y: string)
    requires Keeps(part, x) && Within(y, PartsInk(parts))
    ensures Within(x + y, PartsInk([part] + parts))
  {
    assert ([part] + parts)[1..] == parts;
    WithinConcat(x, Visible(part), y, PartsInk(parts));
  }

  // ---- Lists and quotes -------------------------------------------------------------

  lemma {:induction false} ClassicItemsKeep(ordered: bool, start: int, items: seq<Inline>)
    requires AllSound(items)
    ensures Within(Ink(items), PartsInk(ClassicItems(ordered, start, items)))
    decreases items
  {
    if items != [] {
      var marker := if ordered then Decimal(start) + ". " else BULLET;
      assert Sound(items[0]);
      KeepsContent(items[0]);
      KeepsBehind(TextTokens(marker), items[0].classic, NonSpace(items[0].text));
      ClassicItemsKeep(ordered, start + 1, items[1..]);
      PartInFront(TextTokens(marker) + items[0].classic, ClassicItems(ordered, start + 1, items[1..]),
                  NonSpace(items[0].text), Ink(items[1..]));
    }
  }

  lemma {:induction false} QuoteLinesKeep(ts: seq<Token>)
    ensures Keeps(QuoteLines(ts), Visible(ts))
  {
    if ts != [] {
      QuoteLinesKeep(ts[1..]);
      var first := if ts[0] == Ch('\n') then TextTokens("\n> ") else [ts[0]];
      var shown := Visible([ts[0]]);
      assert [ts[0]] + ts[1..] == ts;
      VisibleConcat([ts[0]], ts[1..]);
      WithinItself(shown);
      assert Keeps(first, shown);
      KeepsBoth(first, shown, QuoteLines(ts[1..]), Visible(ts[1..]));
    }
  }

  // ---- Tables -------------------------------------------------------------------------

  function RowInk(row: seq<Cell>): string {
    Ink(CellContents(row))
  }

  lemma RowInkStep(row: seq<Cell>, index: nat)
    requires index < |row|
    ensures RowInk(row[index..]) == NonSpace(row[index].content.text) + RowInk(row[index + 1..])
  {
    assert row[index..][0] == row[index] && row[index..][1..] == row[index + 1..];
  }

  // A labelled value shows its label and its value.
  lemma PairKeeps(key: string, heading: string, value: Inline)
    requires Sound(value) && (key == [] || heading == key)
    ensures Keeps(Wrap(HtmlTokens.B, [], TextTokens(heading + ":")) + TextTokens(" ") + value.classic,
                  NonSpace(key) + NonSpace(value.text))
  {
    hide SoundMarkup, TextTokens, Wrap, ClosedTags;
    var name := Wrap(HtmlTokens.B, [], TextTokens(heading + ":"));
    VisibleOfWrap(HtmlTokens.B, [], TextTokens(heading + ":"));
    VisibleOfText(heading + ":");
    NonSpaceConcat(heading, ":");
    WithinItself(NonSpace(heading));
    WithinConcat(NonSpace(heading), NonSpace(heading), [], NonSpace(":"));
    assert NonSpace(heading) + [] == NonSpace(heading);
    assert Keeps(name, NonSpace(key));
    KeepsContent(value);
    KeepsBehind(TextTokens(" "), value.classic, NonSpace(value.text));
    KeepsBoth(name, NonSpace(key), TextTokens(" ") + value.classic, NonSpace(value.text));
    assert name + (TextTokens(" ") + value.classic) == name + TextTokens(" ") + value.classic;
  }

  lemma {:induction false} KeyValuePairsKeep(row: seq<Cell>, index: nat)
    requires CellsSound(row)
    ensures Within(if index < |row| then RowInk(row[index..]) else [], PartsInk(KeyValuePairs(row, index)))
    decreases |row| - index
  {
    hide Wrap, RowInk, Sound;
    if index < |row| {
      var key, value := row[index].content, CellAt(row, index + 1).content;
      var later := KeyValuePairs(row, index + 2);
      var rest := if index + 2 < |row| then RowInk(row[index + 2..]) else [];
      var heading := if key.text != [] then key.text else "Field " + Decimal(index / 2 + 1);
      PlainTextSound("");
      assert row[index] in row && Sound(value);
      PairInkStep(row, index);
      KeyValuePairsKeep(row, index + 2);
      KeepsContent(key);
      PairKeeps(key.text, heading, value);
      if key.text == [] && value.text == [] {
        assert [] + rest == rest && [] + later == later;
      } else if value.text == [] {
        PartInFront(key.classic, later, NonSpace(key.text), rest);
        assert NonSpace(key.text) + [] == NonSpace(key.text);
      } else {
        PartInFront(Wrap(HtmlTokens.B, [], TextTokens(heading + ":")) + TextTokens(" ") + value.classic, later,
                    NonSpace(key.text) + NonSpace(value.text), rest);
      }
    }
  }

  lemma PairInkStep(row: seq<Cell>, index: nat)
    requires index < |row|
    ensures RowInk(row[index..]) == NonSpace(row[index].content.text) + NonSpace(CellAt(row, index + 1).content.text)
                                      + if index + 2 < |row| then RowInk(row[index + 2..]) else []
  {
    RowInkStep(row, index);
    var first, second := NonSpace(row[index].content.text), NonSpace(CellAt(row, index + 1).content.text);
    if index + 1 < |row| {
      RowInkStep(row, index + 1);
      assert first + (second + RowInk(row[index + 2..])) == first + second + RowInk(row[index + 2..]);
      if index + 2 == |row| {
        assert row[index + 2..] == [];
      }
    } else {
      assert row[index + 1..] == [];
    }
  }

  // Joined rows keep what each of them keeps.
  lemma RowInFront(row: seq<Token>, rows: seq<seq<Token>>, cells: seq<Cell>, below: seq<seq<Cell>>)
    requires Keeps(row, RowInk(cells)) && Within(Ink(TableContents(below)), PartsInk(rows))
    ensures Within(Ink(TableContents([cells] + below)), PartsInk([row] + rows))
  {
    assert ([cells] + below)[1..] == below;
    InkConcat(CellContents(cells), TableContents(below));
    PartInFront(row, rows, RowInk(cells), Ink(TableContents(below)));
  }

  lemma {:induction false} KeyValueRowsKeep(rows: seq<seq<Cell>>)
    requires RowsSound(rows)
    ensures Within(Ink(TableContents(rows)), PartsInk(KeyValueRows(rows)))
  {
    hide RowInk, Join, KeyValuePairs;
    if rows != [] {
      var pairs := KeyValuePairs(rows[0], 0);
      assert CellsSound(rows[0]);
      KeyValuePairsKeep(rows[0], 0);
      assert rows[0][0..] == rows[0];
      EmptyRowInk();
      JoinKeeps(pairs, MIDDLE_DOT, RowInk(rows[0]));
      KeyValueRowsKeep(rows[1..]);
      assert [rows[0]] + rows[1..] == rows;
      RowInFront(Join(pairs, MIDDLE_DOT), KeyValueRows(rows[1..]), rows[0], rows[1..]);
    }
  }

  lemma EmptyRowInk()
    ensures RowInk([]) == []
  {
  }

  lemma {:induction false} TextCellsKeep(row: seq<Cell>)
    requires CellsSound(row)
    ensures Within(RowInk(row), PartsInk(TextCells(row)))
  {
    if row != [] {
      assert row[0] in row;
      KeepsContent(row[0].content);
      TextCellsKeep(row[1..]);
      if row[0].content.text == [] {
        assert [] + TextCells(row[1..]) == TextCells(row[1..]) && [] + RowInk(row[1..]) == RowInk(row[1..]);
      } else {
        PartInFront(row[0].content.classic, TextCells(row[1..]), NonSpace(row[0].content.text), RowInk(row[1..]));
      }
    }
  }

  lemma {:induction false} GridRowsKeep(rows: seq<seq<Cell>>)
    requires RowsSound(rows)
    ensures Within(Ink(TableContents(rows)), PartsInk(GridRows(rows)))
  {
    hide RowInk, Join, TextCells;
    if rows != [] {
      var cells := TextCells(rows[0]);
      assert CellsSound(rows[0]);
      TextCellsKeep(rows[0]);
      JoinKeeps(cells, MIDDLE_DOT, RowInk(rows[0]));
      GridRowsKeep(rows[1..]);
      assert [rows[0]] + rows[1..] == rows;
      RowInFront(Join(cells, MIDDLE_DOT), GridRows(rows[1..]), rows[0], rows[1..]);
    }
  }

  // ---- Records --------------------------------------------------------------------------

  // Every cell starts at or after the end of the cell before it.
  predicate Ascending(places: seq<Layout.Rect>, from: nat) {
    places != [] ==> from <= places[0].column && Ascending(places[1..], places[0].End())
  }

  lemma {:induction false} PlacedRowAscends(cells: seq<Layout.Spans>, occupied: seq<nat>, row: nat, column: nat)
    ensures Ascending(Layout.PlaceRow(cells, occupied, row, column).0, column)
    decreases cells
  {
    if cells != [] {
      var first := Layout.PlaceCell(cells[0], occupied, row, column);
      PlacedRowAscends(cells[1..], Layout.Mark(occupied, first), row, first.End());
    }
  }

  lemma {:induction false} PlacedRowsAscend(rows: seq<seq<Layout.Spans>>, occupied: seq<nat>, row: nat)
    ensures forall places | places in Layout.PlaceFrom(rows, occupied, row) :: Ascending(places, 0)
  {
    if rows != [] {
      PlacedRowAscends(rows[0], occupied, row, 0);
      PlacedRowsAscend(rows[1..], Layout.PlaceRow(rows[0], occupied, row, 0).1, row + 1);
    }
  }

  /**
   * The label over a column is the text of the one header cell that covers it,
   * and empty when none does.
   */
  lemma {:induction false} HeaderCoversItsColumns(headers: seq<Cell>, places: seq<Layout.Rect>, from: nat, column: nat)
    requires |headers| == |places| && Ascending(places, from)
    ensures column < from ==> forall k | 0 <= k < |places| :: !(places[k].column <= column < places[k].End())
    ensures forall k | 0 <= k < |places| && places[k].column <= column < places[k].End() ::
              HeaderText(headers, places, column) == headers[k].content.text
    ensures (forall k | 0 <= k < |places| :: !(places[k].column <= column < places[k].End())) ==>
              HeaderText(headers, places, column) == []
  {
    if headers != [] {
      var rest := places[1..];
      HeaderCoversItsColumns(headers[1..], rest, places[0].End(), column);
      forall k | 0 < k < |places| ensures places[k] == rest[k - 1] && headers[k] == headers[1..][k - 1] {}
      forall p | p in rest ensures exists k :: 0 <= k < |rest| && rest[k] == p {}
      forall k | 0 <= k < |places| && places[k].column <= column < places[k].End()
        ensures HeaderText(headers, places, column) == headers[k].content.text
      {
        if k > 0 {
          assert rest[k - 1] in rest;
        }
      }
      if forall k | 0 <= k < |places| :: !(places[k].column <= column < places[k].End()) {
        forall k | 0 <= k < |rest| ensures !(rest[k].column <= column < rest[k].End()) {
          assert places[k + 1] == rest[k];
        }
      }
    }
  }

  lemma TitleKeeps(c: Inline)
    requires Sound(c)
    ensures Keeps(if c.classic == [] then [] else ClassicBold(c), NonSpace(c.text))
  {
    KeepsContent(c);
  }

  // The labels of a record's fields: all its cells with text but the title.
  function FieldNames(
    row: seq<Cell>, places: seq<Layout.Rect>, headers: seq<Cell>, headerPlaces: seq<Layout.Rect>): seq<string>
    requires |row| == |places| && |headers| == |headerPlaces|
  {
    if row == [] then []
    else
      (if IsField(row[0], places[0]) then [FieldName(headers, headerPlaces, places[0].column)] else [])
        + FieldNames(row[1..], places[1..], headers, headerPlaces)
  }

  predicate IsField(cell: Cell, place: Layout.Rect) {
    place.column > 0 && cell.content.text != []
  }

  predicate Covers(place: Layout.Rect, column: nat) {
    place.column <= column < place.End()
  }

  // Some field stands below header cell `k`.
  predicate HeadsField(row: seq<Cell>, places: seq<Layout.Rect>, headerPlaces: seq<Layout.Rect>, k: nat)
    requires |row| == |places| && k < |headerPlaces|
  {
    exists j :: 0 <= j < |row| && IsField(row[j], places[j]) && Covers(headerPlaces[k], places[j].column)
  }

  lemma LabelLeads(name: string, c: Inline)
    ensures TextTokens(name + ": ") <= TextTokens(name + ": ") + c.classic
  {
    hide TextTokens;
  }

  // Every field begins with its label.
  lemma {:induction false} FieldsAreLabelled(
    row: seq<Cell>, places: seq<Layout.Rect>, headers: seq<Cell>, headerPlaces: seq<Layout.Rect>)
    requires |row| == |places| && |headers| == |headerPlaces|
    ensures var names := FieldNames(row, places, headers, headerPlaces);
            var fields := RecordFields(row, places, headers, headerPlaces);
            |names| == |fields| && forall i | 0 <= i < |names| :: TextTokens(names[i] + ": ") <= fields[i]
  {
    hide FieldName, TextTokens;
    if row != [] {
      LabelLeads(FieldName(headers, headerPlaces, places[0].column), row[0].content);
      FieldsAreLabelled(row[1..], places[1..], headers, headerPlaces);
    }
  }

  lemma {:induction false} NamesOfFields(
    row: seq<Cell>, places: seq<Layout.Rect>, headers: seq<Cell>, headerPlaces: seq<Layout.Rect>, name: string)
    requires |row| == |places| && |headers| == |headerPlaces|
    ensures name in FieldNames(row, places, headers, headerPlaces) <==>
            exists j :: 0 <= j < |row| && IsField(row[j], places[j])
              && name == FieldName(headers, headerPlaces, places[j].column)
  {
    hide FieldName, IsField;
    if row != [] {
      var rest, restPlaces := row[1..], places[1..];
      NamesOfFields(rest, restPlaces, headers, headerPlaces, name);
      if j :| 0 <= j < |row| && IsField(row[j], places[j])
              && name == FieldName(headers, headerPlaces, places[j].column) {
        if j > 0 {
          assert rest[j - 1] == row[j] && restPlaces[j - 1] == places[j];
        }
      }
      if j :| 0 <= j < |rest| && IsField(rest[j], restPlaces[j])
              && name == FieldName(headers, headerPlaces, restPlaces[j].column) {
        assert rest[j] == row[j + 1] && restPlaces[j] == places[j + 1];
      }
    }
  }

  /**
   * The text of a header cell labels the fields of a record in the columns the
   * cell covers, and fields below no header text are numbered.
   */
  predicate IsLabel(
    name: string, row: seq<Cell>, places: seq<Layout.Rect>, headers: seq<Cell>, headerPlaces: seq<Layout.Rect>)
    requires |row| == |places| && |headers| == |headerPlaces|
  {
    || (exists k ::
          && 0 <= k < |headers| && headers[k].content.text == name != []
          && HeadsField(row, places, headerPlaces, k))
    || (exists j ::
          && 0 <= j < |row| && IsField(row[j], places[j]) && name == "Column " + Decimal(places[j].column + 1)
          && forall k | 0 <= k < |headers| && Covers(headerPlaces[k], places[j].column) ::
               headers[k].content.text == [])
  }

  lemma HeaderLabelsItsFields(
    row: seq<Cell>, places: seq<Layout.Rect>, headers: seq<Cell>, headerPlaces: seq<Layout.Rect>, name: string)
    requires |row| == |places| && |headers| == |headerPlaces| && Ascending(headerPlaces, 0)
    ensures name in FieldNames(row, places, headers, headerPlaces) <==>
            IsLabel(name, row, places, headers, headerPlaces)
  {
    NamesOfFields(row, places, headers, headerPlaces, name);
    forall column: nat
      ensures forall k | 0 <= k < |headers| && Covers(headerPlaces[k], column) ::
                HeaderText(headers, headerPlaces, column) == headers[k].content.text
      ensures (forall k | 0 <= k < |headers| :: !Covers(headerPlaces[k], column))
              ==> HeaderText(headers, headerPlaces, column) == []
    {
      HeaderCoversItsColumns(headers, headerPlaces, 0, column);
    }
  }

  // The labels of all records of a table.
  function Labels(
    rows: seq<seq<Cell>>, places: seq<seq<Layout.Rect>>, headers: seq<Cell>, headerPlaces: seq<Layout.Rect>):
    seq<string>
    requires |rows| == |places| && |headers| == |headerPlaces|
    requires forall i | 0 <= i < |rows| :: |rows[i]| == |places[i]|
  {
    if rows == [] then []
    else
      FieldNames(rows[0], places[0], headers, headerPlaces) + Labels(rows[1..], places[1..], headers, headerPlaces)
  }

  lemma {:induction false} LabelsOfRecords(
    rows: seq<seq<Cell>>, places: seq<seq<Layout.Rect>>, headers: seq<Cell>, headerPlaces: seq<Layout.Rect>,
    name: string)
    requires |rows| == |places| && |headers| == |headerPlaces| && Ascending(headerPlaces, 0)
    requires forall i | 0 <= i < |rows| :: |rows[i]| == |places[i]|
    ensures name in Labels(rows, places, headers, headerPlaces) <==>
            exists i :: 0 <= i < |rows| && IsLabel(name, rows[i], places[i], headers, headerPlaces)
  {
    hide FieldNames, IsLabel, Ascending;
    if rows != [] {
      var rest, restPlaces := rows[1..], places[1..];
      HeaderLabelsItsFields(rows[0], places[0], headers, headerPlaces, name);
      LabelsOfRecords(rest, restPlaces, headers, headerPlaces, name);
      if i :| 0 <= i < |rows| && IsLabel(name, rows[i], places[i], headers, headerPlaces) {
        if i > 0 {
          assert rest[i - 1] == rows[i] && restPlaces[i - 1] == places[i];
        }
      }
      if i :| 0 <= i < |rest| && IsLabel(name, rest[i], restPlaces[i], headers, headerPlaces) {
        assert rest[i] == rows[i + 1] && restPlaces[i] == places[i + 1];
      }
    }
  }

  /**
   * Which texts of the header row a table of records shows: those of the cells
   * that cover a column, other than the first, in which some record has text.
   */
  lemma HeaderIsShownExactlyWhen(rows: seq<seq<Cell>>, name: string)
    requires |rows| > 1
    ensures var places := Layout.Place(TableSpans(rows));
            name in Labels(rows[1..], places[1..], rows[0], places[0]) <==>
            exists i :: 1 <= i < |rows| && IsLabel(name, rows[i], places[i], rows[0], places[0])
  {
    hide IsLabel, Labels, Layout.Place;
    var places := Layout.Place(TableSpans(rows));
    PlacesAscend(rows);
    LabelsOfRecords(rows[1..], places[1..], rows[0], places[0], name);
    if i :| 1 <= i < |rows| && IsLabel(name, rows[i], places[i], rows[0], places[0]) {
      assert rows[1..][i - 1] == rows[i] && places[1..][i - 1] == places[i];
    }
    if i :| 0 <= i < |rows[1..]| && IsLabel(name, rows[1..][i], places[1..][i], rows[0], places[0]) {
      assert rows[1..][i] == rows[i + 1] && places[1..][i] == places[i + 1];
    }
  }

  lemma PlacesAscend(rows: seq<seq<Cell>>)
    ensures forall p | p in Layout.Place(TableSpans(rows)) :: Ascending(p, 0)
  {
    PlacedRowsAscend(TableSpans(rows), [], 0);
  }

  // What a record shows: its cells in order, with labels before the fields.
  function RecordInk(
    row: seq<Cell>, places: seq<Layout.Rect>, headers: seq<Cell>, headerPlaces: seq<Layout.Rect>): string
    requires |row| == |places| && |headers| == |headerPlaces|
  {
    if row == [] then []
    else
      (if IsField(row[0], places[0]) then NonSpace(FieldName(headers, headerPlaces, places[0].column)) else [])
        + NonSpace(row[0].content.text) + RecordInk(row[1..], places[1..], headers, headerPlaces)
  }

  function RecordsInk(
    rows: seq<seq<Cell>>, places: seq<seq<Layout.Rect>>, headers: seq<Cell>, headerPlaces: seq<Layout.Rect>): string
    requires |rows| == |places| && |headers| == |headerPlaces|
    requires forall i | 0 <= i < |rows| :: |rows[i]| == |places[i]|
  {
    if rows == [] then []
    else
      RecordInk(rows[0], places[0], headers, headerPlaces) + RecordsInk(rows[1..], places[1..], headers, headerPlaces)
  }

  // A labelled cell in front of later fields; an empty cell is left out.
  lemma FieldInFront(name: string, c: Inline, later: seq<seq<Token>>, ink: string)
    requires Sound(c) && Within(ink, PartsInk(later))
    ensures Within((if c.text == [] then [] else NonSpace(name)) + NonSpace(c.text) + ink,
                   PartsInk((if c.text == [] then [] else [TextTokens(name + ": ") + c.classic]) + later))
  {
    hide PartsInk, Within, SoundMarkup, TextTokens;
    if c.text == [] {
      var none: string := [];
      assert NonSpace(c.text) == none && none + none + ink == ink && [] + later == later;
    } else {
      KeepsContent(c);
      LabelKeeps(name);
      KeepsBoth(TextTokens(name + ": "), NonSpace(name), c.classic, NonSpace(c.text));
      PartInFront(TextTokens(name + ": ") + c.classic, later, NonSpace(name) + NonSpace(c.text), ink);
    }
  }

  lemma LabelKeeps(name: string)
    ensures Keeps(TextTokens(name + ": "), NonSpace(name))
  {
    hide Within;
    VisibleOfText(name + ": ");
    NonSpaceConcat(name, ": ");
    WithinItself(NonSpace(name));
    WithinNothing(NonSpace(": "));
    WithinConcat(NonSpace(name), NonSpace(name), [], NonSpace(": "));
    assert NonSpace(name) + [] == NonSpace(name);
  }

  lemma WithinNothing(b: string)
    ensures Within([], b)
  {
  }

  lemma RecordInkStep(row: seq<Cell>, places: seq<Layout.Rect>, headers: seq<Cell>, headerPlaces: seq<Layout.Rect>)
    requires |row| == |places| && |headers| == |headerPlaces| && row != []
    ensures var own := if IsField(row[0], places[0]) then
                         NonSpace(FieldName(headers, headerPlaces, places[0].column)) else [];
            RecordInk(row, places, headers, headerPlaces) ==
            own + NonSpace(row[0].content.text) + RecordInk(row[1..], places[1..], headers, headerPlaces)
  {
  }

  // Title and fields of a record together keep all its cells and labels.
  lemma {:induction false} RecordFieldsKeep(
    row: seq<Cell>, places: seq<Layout.Rect>, headers: seq<Cell>, headerPlaces: seq<Layout.Rect>, from: nat)
    requires |row| == |places| && |headers| == |headerPlaces| && CellsSound(row) && Ascending(places, from)
    ensures var title, fields := RecordTitle(row, places), RecordFields(row, places, headers, headerPlaces);
            && Within(RecordInk(row, places, headers, headerPlaces), Visible(title) + PartsInk(fields))
            && (from > 0 ==> title == [])
  {
    hide FieldName, Within, PartsInk, Sound, ClassicBold, TextTokens, RecordInk;
    if row == [] {
      NoRecordInk(places, headers, headerPlaces);
      WithinNothing(Visible([]) + PartsInk([]));
    } else {
      var cell, column := row[0].content, places[0].column;
      var name := FieldName(headers, headerPlaces, column);
      var later := RecordFields(row[1..], places[1..], headers, headerPlaces);
      var fields := RecordFields(row, places, headers, headerPlaces);
      var ink := RecordInk(row[1..], places[1..], headers, headerPlaces);
      assert row[0] in row;
      RecordInkStep(row, places, headers, headerPlaces);
      RecordFieldsKeep(row[1..], places[1..], headers, headerPlaces, places[0].End());
      assert Visible([]) + PartsInk(later) == PartsInk(later) && Visible([]) + PartsInk(fields) == PartsInk(fields);
      if column == 0 {
        assert [] + later == later && [] + NonSpace(cell.text) == NonSpace(cell.text);
        TitleKeeps(cell);
        WithinConcat(NonSpace(cell.text), Visible(RecordTitle(row, places)), ink, PartsInk(later));
      } else {
        FieldInFront(name, cell, later, ink);
      }
    }
  }

  lemma NoRecordInk(places: seq<Layout.Rect>, headers: seq<Cell>, headerPlaces: seq<Layout.Rect>)
    requires places == [] && |headers| == |headerPlaces|
    ensures RecordInk([], places, headers, headerPlaces) == []
  {
  }

  lemma RecordKeeps(row: seq<Cell>, places: seq<Layout.Rect>, headers: seq<Cell>, headerPlaces: seq<Layout.Rect>)
    requires |row| == |places| && |headers| == |headerPlaces| && CellsSound(row) && Ascending(places, 0)
    ensures var fields := Join(RecordFields(row, places, headers, headerPlaces), MIDDLE_DOT);
            Keeps(Join(NonEmpty([RecordTitle(row, places), fields]), "\n"),
                  RecordInk(row, places, headers, headerPlaces))
  {
    hide RecordTitle, RecordFields, Join, NonEmpty, RecordInk;
    var title, fields := RecordTitle(row, places), RecordFields(row, places, headers, headerPlaces);
    var joined, ink := Join(fields, MIDDLE_DOT), RecordInk(row, places, headers, headerPlaces);
    RecordFieldsKeep(row, places, headers, headerPlaces, 0);
    JoinKeepsParts(fields, MIDDLE_DOT);
    WithinItself(Visible(title));
    WithinConcat(Visible(title), Visible(title), PartsInk(fields), Visible(joined));
    WithinTransitive(ink, Visible(title) + PartsInk(fields), Visible(title) + Visible(joined));
    NonEmptyInk([title, joined]);
    OnePartInk(joined);
    assert [title, joined][1..] == [joined];
    JoinKeeps(NonEmpty([title, joined]), "\n", ink);
  }

  lemma {:induction false} RecordRowsKeep(
    rows: seq<seq<Cell>>, places: seq<seq<Layout.Rect>>, headers: seq<Cell>, headerPlaces: seq<Layout.Rect>)
    requires |rows| == |places| && |headers| == |headerPlaces|
    requires forall i | 0 <= i < |rows| :: |rows[i]| == |places[i]|
    requires RowsSound(rows) && forall p | p in places :: Ascending(p, 0)
    ensures Within(RecordsInk(rows, places, headers, headerPlaces),
                   PartsInk(RecordRows(rows, places, headers, headerPlaces)))
  {
    hide RecordInk, Join, NonEmpty, RecordTitle, RecordFields, Ascending, PartsInk;
    if rows == [] {
      WithinNothing(PartsInk([]));
    } else {
      assert CellsSound(rows[0]) && places[0] in places;
      RecordKeeps(rows[0], places[0], headers, headerPlaces);
      RecordRowsKeep(rows[1..], places[1..], headers, headerPlaces);
      var fields := Join(RecordFields(rows[0], places[0], headers, headerPlaces), MIDDLE_DOT);
      PartInFront(Join(NonEmpty([RecordTitle(rows[0], places[0]), fields]), "\n"),
                  RecordRows(rows[1..], places[1..], headers, headerPlaces),
                  RecordInk(rows[0], places[0], headers, headerPlaces),
                  RecordsInk(rows[1..], places[1..], headers, headerPlaces));
    }
  }

  // Without the labels, a record shows all its cells.
  lemma {:induction false} RecordShowsItsCells(
    row: seq<Cell>, places: seq<Layout.Rect>, headers: seq<Cell>, headerPlaces: seq<Layout.Rect>)
    requires |row| == |places| && |headers| == |headerPlaces|
    ensures Within(RowInk(row), RecordInk(row, places, headers, headerPlaces))
  {
    hide FieldName, Within, RecordInk, RowInk;
    if row == [] {
      EmptyRowInk();
      WithinNothing(RecordInk(row, places, headers, headerPlaces));
    } else {
      var own := if IsField(row[0], places[0]) then
                   NonSpace(FieldName(headers, headerPlaces, places[0].column)) else [];
      var text, rest := NonSpace(row[0].content.text), RecordInk(row[1..], places[1..], headers, headerPlaces);
      assert row[0..] == row;
      RowInkStep(row, 0);
      RecordInkStep(row, places, headers, headerPlaces);
      RecordShowsItsCells(row[1..], places[1..], headers, headerPlaces);
      WithinNothing(own);
      WithinItself(text);
      WithinConcat([], own, text, text);
      WithinConcat([] + text, own + text, RowInk(row[1..]), rest);
      assert [] + text == text;
    }
  }

  // ---- Blocks -----------------------------------------------------------------------------

  // Records are shown one by one, without the header row as such.
  predicate ShownAsRecords(table: TableModel) {
    table.kind == Records && |table.rows| > 1
  }

  function ClassicInk(b: Block): string {
    if b.TableBlock? && ShownAsRecords(b.table) then
      CaptionInk(b.table.caption) + RowsInk(b.table)
    else BlockInk(b)
  }

  // What the rows of a table show: records with their labels, other rows as they are.
  function RowsInk(table: TableModel): string {
    if ShownAsRecords(table) then
      var places := Layout.Place(TableSpans(table.rows));
      RecordsInk(table.rows[1..], places[1..], table.rows[0], places[0])
    else Ink(TableContents(table.rows))
  }

  function ClassicInks(blocks: seq<Block>): string {
    if blocks == [] then [] else ClassicInk(blocks[0]) + ClassicInks(blocks[1..])
  }

  lemma ClassicRowsKeep(table: TableModel)
    requires RowsSound(table.rows)
    ensures Keeps(ClassicTable(table.(caption := None)), RowsInk(table))
  {
    if table.kind == KeyValue {
      KeyValueRowsKeep(table.rows);
      JoinKeeps(KeyValueRows(table.rows), "\n", Ink(TableContents(table.rows)));
      assert [] + Join(KeyValueRows(table.rows), "\n") == Join(KeyValueRows(table.rows), "\n");
    } else if ShownAsRecords(table) {
      var places := Layout.Place(TableSpans(table.rows));
      PlacesAscend(table.rows);
      var records := RecordRows(table.rows[1..], places[1..], table.rows[0], places[0]);
      RecordRowsKeep(table.rows[1..], places[1..], table.rows[0], places[0]);
      JoinKeeps(records, "\n\n", RowsInk(table));
      assert [] + Join(records, "\n\n") == Join(records, "\n\n");
    } else {
      GridRowsKeep(table.rows);
      JoinKeeps(GridRows(table.rows), "\n", Ink(TableContents(table.rows)));
      assert [] + Join(GridRows(table.rows), "\n") == Join(GridRows(table.rows), "\n");
    }
  }

  function ClassicCaption(caption: Option<Inline>): seq<Token> {
    if caption.Some? && caption.value.classic != [] then ClassicBold(caption.value) + TextTokens("\n") else []
  }

  function CaptionInk(caption: Option<Inline>): string {
    if caption.Some? then NonSpace(caption.value.text) else []
  }

  lemma TableInkParts(table: TableModel)
    ensures BlockInk(TableBlock(table)) == CaptionInk(table.caption) + Ink(TableContents(table.rows))
  {
    var caption := if table.caption.Some? then [table.caption.value] else [];
    InkConcat(caption, TableContents(table.rows));
    assert table.caption.Some? ==> Ink(caption) == NonSpace(table.caption.value.text) + Ink([]);
  }

  lemma CaptionKeeps(caption: Option<Inline>)
    requires caption.Some? ==> Sound(caption.value)
    ensures Keeps(ClassicCaption(caption), CaptionInk(caption))
  {
    if caption.Some? {
      KeepsContent(caption.value);
      if caption.value.classic != [] {
        KeepsBoth(ClassicBold(caption.value), CaptionInk(caption), TextTokens("\n"), []);
        assert CaptionInk(caption) + [] == CaptionInk(caption);
      }
    }
  }

  lemma CaptionThenRows(table: TableModel)
    ensures ClassicTable(table) == ClassicCaption(table.caption) + ClassicTable(table.(caption := None))
  {
    hide Join, KeyValueRows, RecordRows, GridRows, ClassicBold, TextTokens;
    var rows := ClassicTable(table.(caption := None));
    assert [] + rows == rows;
  }

  lemma ClassicTableKeeps(table: TableModel)
    requires BlockSound(TableBlock(table))
    ensures Keeps(ClassicTable(table), ClassicInk(TableBlock(table)))
  {
    hide ClassicTable, ClassicCaption, TableContents, Keeps, BlockInk, Ink, RecordsInk;
    ClassicRowsKeep(table);
    CaptionThenRows(table);
    CaptionKeeps(table.caption);
    KeepsBoth(ClassicCaption(table.caption), CaptionInk(table.caption), ClassicTable(table.(caption := None)),
              RowsInk(table));
    TableInkParts(table);
  }

  lemma ClassicBlockKeeps(b: Block)
    requires BlockSound(b)
    ensures Keeps(ClassicBlock(b), ClassicInk(b))
  {
    match b
    case TableBlock(table) => ClassicTableKeeps(table);
    case ListBlock(ordered, start, items) =>
      ClassicItemsKeep(ordered, start, items);
      JoinKeeps(ClassicItems(ordered, start, items), "\n", Ink(items));
    case PreBlock(text) =>
      VisibleOfWrap(HtmlTokens.Pre, [], TextTokens(text));
      VisibleOfText(text);
      WithinItself(NonSpace(text));
    case DividerBlock =>
    case QuoteBlock(content) =>
      SingleInk(content);
      QuoteLinesKeep(content.classic);
      KeepsBehind(TextTokens("> "), QuoteLines(content.classic), NonSpace(content.text));
    case _ =>
      SingleInk(b.content);
      KeepsContent(b.content);
  }

  lemma SingleInk(c: Inline)
    ensures Ink([c]) == NonSpace(c.text)
  {
    assert NonSpace(c.text) + Ink([]) == NonSpace(c.text);
  }

  lemma {:induction false} ClassicBlocksKeep(blocks: seq<Block>)
    requires BlocksSound(blocks)
    ensures Within(ClassicInks(blocks), PartsInk(ClassicBlocks(blocks)))
  {
    hide ClassicBlock, ClassicInk;
    if blocks != [] {
      assert BlockSound(blocks[0]);
      ClassicBlockKeeps(blocks[0]);
      ClassicBlocksKeep(blocks[1..]);
      PartInFront(ClassicBlock(blocks[0]), ClassicBlocks(blocks[1..]), ClassicInk(blocks[0]), ClassicInks(blocks[1..]));
    }
  }

  /**
   * The classic form of any sound blocks shows all their visible characters in
   * order, but for a table of records those of its header row, of which it
   * shows the labels of its fields.
   */
  lemma ClassicLosesNothing(blocks: seq<Block>)
    requires BlocksSound(blocks)
    ensures Within(ClassicInks(blocks), Visible(RenderClassic(blocks)))
  {
    hide ClassicBlocks, ClassicInks, Join;
    ClassicBlocksKeep(blocks);
    NonEmptyInk(ClassicBlocks(blocks));
    JoinKeeps(NonEmpty(ClassicBlocks(blocks)), "\n\n", ClassicInks(blocks));
    TrimAlike(Join(NonEmpty(ClassicBlocks(blocks)), "\n\n"));
  }

  lemma {:induction false} WithoutRecords(blocks: seq<Block>)
    requires forall b | b in blocks :: !(b.TableBlock? && ShownAsRecords(b.table))
    ensures ClassicInks(blocks) == BlocksInk(blocks)
  {
    if blocks != [] {
      assert blocks[0] in blocks;
      assert forall b | b in blocks[1..] :: b in blocks;
      WithoutRecords(blocks[1..]);
    }
  }

  // ---- Markers only add -----------------------------------------------------------------------

  lemma {:induction false} InlineWithinMarked(nodes: seq<Node>, readers: Readers)
    ensures Within(InlineInk(nodes, readers, false), InlineInk(nodes, readers, true))
    decreases nodes, 1
  {
    hide Within;
    if nodes == [] {
      WithinItself([]);
    } else {
      NodeWithinMarked(nodes[0], readers);
      InlineWithinMarked(nodes[1..], readers);
      WithinConcat(NodeInk(nodes[0], readers, false), NodeInk(nodes[0], readers, true),
                   InlineInk(nodes[1..], readers, false), InlineInk(nodes[1..], readers, true));
    }
  }

  lemma {:induction false} NodeWithinMarked(node: Node, readers: Readers)
    ensures Within(NodeInk(node, readers, false), NodeInk(node, readers, true))
    decreases node, 0
  {
    hide Within;
    WithinItself(NodeInk(node, readers, false));
    if node.Element? && !IsDropped(node.name) && !node.name.Br? && !node.name.Table? {
      var marker :=
        if node.name.Li? && HasInlineText(node.children) then NonSpace(ListItemPrefix(node, readers)) else [];
      InlineWithinMarked(node.children, readers);
      WithinNothing(marker);
      WithinConcat([], marker, InlineInk(node.children, readers, false), InlineInk(node.children, readers, true));
    }
  }

  lemma {:induction false} RunsWithinMarked(runs: seq<Run>, readers: Readers)
    ensures Within(RunsInk(runs, readers, false), RunsInk(runs, readers, true))
  {
    hide Within, InlineInk, CollectedInk;
    if runs == [] {
      WithinItself([]);
    } else {
      WithinItself(RunInk(runs[0], readers, false));
      if runs[0].Inlined? {
        InlineWithinMarked(runs[0].nodes, readers);
      }
      RunsWithinMarked(runs[1..], readers);
      WithinConcat(RunInk(runs[0], readers, false), RunInk(runs[0], readers, true),
                   RunsInk(runs[1..], readers, false), RunsInk(runs[1..], readers, true));
    }
  }

  predicate NoRecords(blocks: seq<Block>) {
    forall b | b in blocks :: !(b.TableBlock? && ShownAsRecords(b.table))
  }

  lemma TextWithinInk(nodes: seq<Node>, readers: Readers)
    ensures Within(TreeInk(nodes, readers, false), TreeInk(nodes, readers, true))
  {
    RunsWithinMarked(TreeRuns(nodes, [], readers), readers);
  }
}
