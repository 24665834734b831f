/**
 * Bare links in text: where the pattern matches, which trailing characters
 * belong to the prose, and the rich text with the links put in.
 */
module HtmlLinks {
  import opened HtmlTokens

  datatype Option<+T> = None | Some(value: T)

  const MAX_SYNTHESIZED_LINK_LENGTH := 2048

  // ---- Trimming a candidate ---------------------------------------------------

  predicate IsTrailingPunctuation(c: char) {
    c in ".,;:!?\U{3002}\U{3001}\U{ff0c}\U{ff01}\U{ff1f}"
  }

  function Opener(closer: char): Option<char> {
    if closer == ')' then Some('(') else if closer == ']' then Some('[') else if closer == '}' then Some('{') else None
  }

  function Count(s: string, c: char): nat {
    if s == [] then 0 else Count(s[..|s| - 1], c) + if s[|s| - 1] == c then 1 else 0
  }

  // The last character of `s` is prose: punctuation, or a closer `s` has too many of.
  predicate EndsInProse(s: string) {
    s != [] &&
    var last := s[|s| - 1];
    IsTrailingPunctuation(last) ||
    (Opener(last).Some? && Count(s, last) > Count(s, Opener(last).value))
  }

  // The reference trimmer: recount the brackets of what is left at every step.
  function TrimProse(s: string): (r: string)
    ensures |r| <= |s| && r == s[..|r|]
    ensures !EndsInProse(r)
    ensures forall e | |r| < e <= |s| :: EndsInProse(s[..e])
  {
    if EndsInProse(s) then
      var r := TrimProse(s[..|s| - 1]);
      assert s[..|s|] == s;
      assert forall e | 0 <= e < |s| :: s[..|s| - 1][..e] == s[..e];
      r
    else s
  }

  function LinkCandidate(raw: string): Option<string> {
    if |raw| > MAX_SYNTHESIZED_LINK_LENGTH || TrimProse(raw) == [] then None else Some(TrimProse(raw))
  }

  lemma {:induction false} CountStep(s: string, n: nat, c: char)
    requires n < |s|
    ensures Count(s[..n + 1], c) == Count(s[..n], c) + if s[n] == c then 1 else 0
  {
    assert s[..n + 1][..n] == s[..n];
  }

  // `counts` holds the number of occurrences in `s` of each of its keys.
  predicate Counts(counts: map<char, int>, s: string) {
    forall c | c in counts :: counts[c] == Count(s, c)
  }

  lemma CountsAfter(counts: map<char, int>, s: string, n: nat)
    requires n < |s| && Counts(counts, s[..n])
    ensures Counts(if s[n] in counts then counts[s[n] := counts[s[n]] + 1] else counts, s[..n + 1])
  {
    forall c ensures Count(s[..n + 1], c) == Count(s[..n], c) + if s[n] == c then 1 else 0 { CountStep(s, n, c); }
  }

  lemma CountsBefore(counts: map<char, int>, s: string, n: nat)
    requires n < |s| && Counts(counts, s[..n + 1])
    ensures Counts(if s[n] in counts then counts[s[n] := counts[s[n]] - 1] else counts, s[..n])
  {
    forall c ensures Count(s[..n + 1], c) == Count(s[..n], c) + if s[n] == c then 1 else 0 { CountStep(s, n, c); }
  }

  method CountBrackets(raw: string) returns (opens: map<char, int>, closes: map<char, int>)
    ensures opens.Keys == {'(', '[', '{'} && Counts(opens, raw)
    ensures closes.Keys == {')', ']', '}'} && Counts(closes, raw)
  {
    opens := map['(' := 0, '[' := 0, '{' := 0];
    closes := map[')' := 0, ']' := 0, '}' := 0];
    var openers, closers := opens.Keys, closes.Keys;
    for i := 0 to |raw|
      invariant opens.Keys == openers && Counts(opens, raw[..i])
      invariant closes.Keys == closers && Counts(closes, raw[..i])
    {
      var ch := raw[i];
      CountsAfter(opens, raw, i);
      CountsAfter(closes, raw, i);
      if ch in opens {
        opens := opens[ch := opens[ch] + 1];
      } else if ch in closes {
        closes := closes[ch := closes[ch] + 1];
      }
    }
    assert raw[..|raw|] == raw;
  }

  lemma TrimStep(s: string)
    requires EndsInProse(s)
    ensures TrimProse(s) == TrimProse(s[..|s| - 1])
  {
  }

  // One step of the linear trimmer: decide by the running counts, and adjust them when a closer goes.
  method CutLast(s: string, opens: map<char, int>, closes: map<char, int>)
    returns (cut: bool, remaining: map<char, int>)
    requires s != []
    requires opens.Keys == {'(', '[', '{'} && Counts(opens, s)
    requires closes.Keys == {')', ']', '}'} && Counts(closes, s)
    ensures cut == EndsInProse(s)
    ensures remaining.Keys == closes.Keys && (cut ==> Counts(remaining, s[..|s| - 1]) && Counts(opens, s[..|s| - 1]))
  {
    var last := s[|s| - 1];
    assert s[..|s|] == s;
    CountsBefore(opens, s, |s| - 1);
    CountsBefore(closes, s, |s| - 1);
    remaining := closes;
    if IsTrailingPunctuation(last) {
      assert last !in opens.Keys && last !in closes.Keys;
      return true, closes;
    }
    var opener := Opener(last);
    assert opener.Some? ==> last in closes.Keys && last !in opens.Keys && opener.value in opens.Keys;
    if opener.Some? && closes[last] > opens[opener.value] {
      return true, closes[last := closes[last] - 1];
    }
    return false, closes;
  }

  /**
   * The linear trimmer: bracket counts are taken once and only the closer that
   * is cut off is subtracted, yet it agrees with recounting at every step.
   */
  method TrimLinkCandidate(raw: string) returns (r: Option<string>)
    ensures r == LinkCandidate(raw)
  {
    if |raw| > MAX_SYNTHESIZED_LINK_LENGTH {
      return None;
    }
    var opens, closes := CountBrackets(raw);
    assert raw[..|raw|] == raw;
    var end := |raw|;
    while end > 0
      invariant 0 <= end <= |raw|
      invariant opens.Keys == {'(', '[', '{'} && Counts(opens, raw[..end])
      invariant closes.Keys == {')', ']', '}'} && Counts(closes, raw[..end])
      invariant TrimProse(raw) == TrimProse(raw[..end])
    {
      var cut, remaining := CutLast(raw[..end], opens, closes);
      if !cut {
        break;
      }
      TrimStep(raw[..end]);
      assert raw[..end][..end - 1] == raw[..end - 1];
      closes := remaining;
      end := end - 1;
    }
    r := if end > 0 then Some(raw[..end]) else None;
  }

  // ---- Finding candidates -----------------------------------------------------

  // Case-insensitive comparison of one pattern letter, with the Unicode folding of the `iu` flags.
  predicate FoldsTo(c: char, letter: char)
    requires 'a' <= letter <= 'z'
  {
    c == letter || c as int + 32 == letter as int || (letter == 's' && c == '\U{17f}')
  }

  predicate StartsWithWord(s: string, word: string) {
    |word| <= |s| &&
    forall i | 0 <= i < |word| :: if 'a' <= word[i] <= 'z' then FoldsTo(s[i], word[i]) else s[i] == word[i]
  }

  function SchemeLength(s: string): (n: nat)
    ensures n <= |s|
  {
    if StartsWithWord(s, "https://") then 8
    else if StartsWithWord(s, "http://") || StartsWithWord(s, "mailto:") then 7
    else 0
  }

  predicate IsLinkCharacter(c: char) {
    !IsSpace(c) && c !in "<>\"'`\U{ab}\U{bb}\U{2018}\U{2019}\U{201c}\U{201d}"
  }

  function LinkRun(s: string): (n: nat)
    ensures n <= |s|
  {
    if s == [] || !IsLinkCharacter(s[0]) then 0 else 1 + LinkRun(s[1..])
  }

  datatype Span = Span(start: nat, end: nat)

  // Length of the match of the bare-link pattern at the start of `s`; 0 when there is none.
  function MatchLength(s: string): (n: nat)
    ensures n <= |s|
  {
    var scheme := SchemeLength(s);
    var run := LinkRun(s[scheme..]);
    if scheme == 0 || run == 0 then 0 else scheme + run
  }

  // All matches at or after `from`, left to right.
  function Matches(text: string, from: nat): seq<Span>
    requires from <= |text|
    decreases |text| - from
  {
    if from == |text| then []
    else
      var n := MatchLength(text[from..]);
      if n == 0 then Matches(text, from + 1) else [Span(from, from + n)] + Matches(text, from + n)
  }

  // The spans lie one after the other between `from` and `length`.
  predicate InOrder(spans: seq<Span>, from: nat, length: nat) {
    if spans == [] then from <= length
    else from <= spans[0].start < spans[0].end <= length && InOrder(spans[1..], spans[0].end, length)
  }

  lemma {:induction false} InOrderFromEarlier(spans: seq<Span>, from: nat, earlier: nat, length: nat)
    requires InOrder(spans, from, length) && earlier <= from
    ensures InOrder(spans, earlier, length)
  {
  }

  lemma {:induction false} MatchesInOrder(text: string, from: nat)
    requires from <= |text|
    ensures InOrder(Matches(text, from), from, |text|)
    decreases |text| - from
  {
    hide MatchLength;
    if from < |text| {
      var n := MatchLength(text[from..]);
      if n == 0 {
        MatchesInOrder(text, from + 1);
        InOrderFromEarlier(Matches(text, from + 1), from + 1, from, |text|);
      } else {
        MatchesInOrder(text, from + n);
      }
    }
  }

  // ---- Putting links in ---------------------------------------------------------

  /** `SynthesizedHref`: the destination a candidate may be linked to, if any. */
  type SynthesizedHref = string -> Option<string>

  // The link a match turns into: its candidate text and destination.
  function LinkAt(text: string, span: Span, href: SynthesizedHref): (r: Option<(string, string)>)
    requires span.start < span.end <= |text|
    ensures r.Some? ==> r.value.0 != [] && span.start + |r.value.0| <= span.end
    ensures r.Some? ==> text[span.start..span.start + |r.value.0|] == r.value.0
  {
    var raw := text[span.start..span.end];
    var candidate := LinkCandidate(raw);
    if candidate.None? || href(candidate.value).None? then None
    else Some((candidate.value, href(candidate.value).value))
  }

  function LinkTokens(link: (string, string)): seq<Token> {
    Wrap(A, [Valued(Href, link.1)], TextTokens(link.0))
  }

  // The text from `cursor` on with every linkable match in `spans` linked.
  function LinkFrom(text: string, spans: seq<Span>, cursor: nat, href: SynthesizedHref): seq<Token>
    requires InOrder(spans, cursor, |text|)
    decreases |spans|
  {
    if spans == [] then TextTokens(text[cursor..])
    else
      var link := LinkAt(text, spans[0], href);
      if link.None? then
        InOrderFromEarlier(spans[1..], spans[0].end, cursor, |text|);
        LinkFrom(text, spans[1..], cursor, href)
      else
        var next := spans[0].start + |link.value.0|;
        InOrderFromEarlier(spans[1..], spans[0].end, next, |text|);
        TextTokens(text[cursor..spans[0].start]) + LinkTokens(link.value) + LinkFrom(text, spans[1..], next, href)
  }

  predicate SomeLink(text: string, spans: seq<Span>, from: nat, href: SynthesizedHref)
    requires InOrder(spans, from, |text|)
    decreases |spans|
  {
    spans != [] && (LinkAt(text, spans[0], href).Some? || SomeLink(text, spans[1..], spans[0].end, href))
  }

  // `ts` shows exactly `text`, with no markup but links that hold only text.
  ghost predicate ShowsLinked(ts: seq<Token>, text: string) {
    && TextOf(ts) == text && Visible(ts) == NonSpace(text)
    && WellFormed(ts) && Depth(ts) <= 1
    && forall k :: Opens(ts, k) ==> k == A
  }

  lemma ShowsText(text: string)
    ensures ShowsLinked(TextTokens(text), text)
  {
    ScanText(TextTokens(text), []);
    VisibleOfText(text);
    TextOfText(text);
  }

  lemma ShowsLink(link: (string, string))
    ensures ShowsLinked(LinkTokens(link), link.0)
  {
    var shown := TextTokens(link.0);
    var attrs := [Valued(Href, link.1)];
    ScanText(shown, []);
    WrapWellFormed(A, attrs, shown);
    ShowsText(link.0);
    TextOfConcat([Open(A, attrs)], shown);
    TextOfConcat([Open(A, attrs)] + shown, [Close(A)]);
  }

  lemma ShowsConcat(a: seq<Token>, x: string, b: seq<Token>, y: string)
    requires ShowsLinked(a, x) && ShowsLinked(b, y)
    ensures ShowsLinked(a + b, x + y)
  {
    WellFormedConcat(a, b);
    OpensConcat(a, b);
    VisibleConcat(a, b);
    TextOfConcat(a, b);
    NonSpaceConcat(x, y);
  }

  lemma ShowsLinkedStep(text: string, cursor: nat, start: nat, link: (string, string), rest: seq<Token>)
    requires cursor <= start && start + |link.0| <= |text|
    requires text[start..start + |link.0|] == link.0
    requires ShowsLinked(rest, text[start + |link.0|..])
    ensures ShowsLinked(TextTokens(text[cursor..start]) + LinkTokens(link) + rest, text[cursor..])
  {
    hide ShowsLinked, LinkTokens, TextTokens;
    var before, after := text[cursor..start], text[start + |link.0|..];
    ShowsText(before);
    ShowsLink(link);
    ShowsConcat(TextTokens(before), before, LinkTokens(link), link.0);
    ShowsConcat(TextTokens(before) + LinkTokens(link), before + link.0, rest, after);
    assert text[cursor..] == before + link.0 + after;
  }

  /**
   * Linking bare URLs changes no visible character, produces links that hold
   * only text, and nests nothing deeper than one level.
   */
  lemma {:induction false} LinkingKeepsText(text: string, spans: seq<Span>, cursor: nat, href: SynthesizedHref)
    requires InOrder(spans, cursor, |text|)
    ensures ShowsLinked(LinkFrom(text, spans, cursor, href), text[cursor..])
    decreases |spans|
  {
    hide LinkAt, ShowsLinked, LinkTokens, TextTokens;
    if spans == [] {
      ShowsText(text[cursor..]);
    } else {
      var link := LinkAt(text, spans[0], href);
      if link.None? {
        InOrderFromEarlier(spans[1..], spans[0].end, cursor, |text|);
        LinkingKeepsText(text, spans[1..], cursor, href);
      } else {
        var start, next := spans[0].start, spans[0].start + |link.value.0|;
        InOrderFromEarlier(spans[1..], spans[0].end, next, |text|);
        LinkingKeepsText(text, spans[1..], next, href);
        ShowsLinkedStep(text, cursor, start, link.value, LinkFrom(text, spans[1..], next, href));
      }
    }
  }
}
