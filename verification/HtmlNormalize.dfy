/**
 * White-space normalisation of rendered inline content. Every regular
 * expression of the source replaces maximal runs of white space (and, in the
 * rich form, line breaks), so each is a `Pass` that rewrites runs. The result
 * that matters: normalising never changes nesting, depth, tags or any visible
 * character.
 */
module HtmlNormalize {
  import opened HtmlTokens

  datatype Pass = Tabs | AroundNewlines | Spaces | Newlines | Breaks

  predicate InRun(p: Pass, t: Token) {
    match p
    case Tabs => t.Ch? && (t.c == '\t' || t.c == '\U{c}' || t.c == '\U{b}' || t.c == '\U{a0}')
    case AroundNewlines => t == Ch(' ') || t == Ch('\n')
    case Spaces => t == Ch(' ')
    case Newlines => t == Ch('\n')
    case Breaks => t.Br? || (t.Ch? && IsSpace(t.c))
  }

  function RunLength(p: Pass, ts: seq<Token>): (n: nat)
    ensures n <= |ts| && forall i | 0 <= i < n :: InRun(p, ts[i])
  {
    if ts == [] || !InRun(p, ts[0]) then 0 else 1 + RunLength(p, ts[1..])
  }

  function CountBreaks(ts: seq<Token>): nat {
    if ts == [] then 0 else (if ts[0].Br? then 1 else 0) + CountBreaks(ts[1..])
  }

  function OnlyNewlines(ts: seq<Token>): seq<Token> {
    if ts == [] then [] else (if ts[0] == Ch('\n') then [ts[0]] else []) + OnlyNewlines(ts[1..])
  }

  // What a pass puts in place of one maximal non-empty run.
  function Rewrite(p: Pass, run: seq<Token>): seq<Token> {
    match p
    case Tabs => [Ch(' ')]
    case AroundNewlines => if Ch('\n') in run then OnlyNewlines(run) else run
    case Spaces => [Ch(' ')]
    case Newlines => if |run| >= 3 then [Ch('\n'), Ch('\n')] else run
    case Breaks => if CountBreaks(run) >= 3 then [Br, Br] else run
  }

  function Apply(p: Pass, ts: seq<Token>): seq<Token>
    decreases |ts|
  {
    if ts == [] then []
    else
      var n := RunLength(p, ts);
      if n == 0 then [ts[0]] + Apply(p, ts[1..]) else Rewrite(p, ts[..n]) + Apply(p, ts[n..])
  }

  // `\r\n?` becomes `\n`.
  function UnifyNewlines(ts: seq<Token>): seq<Token>
    decreases |ts|
  {
    if ts == [] then []
    else if ts[0] == Ch('\r') then
      [Ch('\n')] + UnifyNewlines(if |ts| > 1 && ts[1] == Ch('\n') then ts[2..] else ts[1..])
    else [ts[0]] + UnifyNewlines(ts[1..])
  }

  function TrimStart(ts: seq<Token>): seq<Token> {
    if ts != [] && ts[0].Ch? && IsSpace(ts[0].c) then TrimStart(ts[1..]) else ts
  }

  function TrimEnd(ts: seq<Token>): seq<Token> {
    if ts != [] && ts[|ts| - 1].Ch? && IsSpace(ts[|ts| - 1].c) then TrimEnd(ts[..|ts| - 1]) else ts
  }

  function Trim(ts: seq<Token>): seq<Token> {
    TrimEnd(TrimStart(ts))
  }

  function NormalizeClassic(ts: seq<Token>, trimBoundary: bool): seq<Token> {
    var normalized :=
      Apply(Newlines, Apply(Spaces, Apply(AroundNewlines, Apply(Tabs, UnifyNewlines(ts)))));
    if trimBoundary then Trim(normalized) else normalized
  }

  function NormalizeRich(ts: seq<Token>, trimBoundary: bool): seq<Token> {
    var normalized := Apply(Spaces, Apply(Breaks, ts));
    if trimBoundary then Trim(normalized) else normalized
  }

  // Plain text goes through the same passes as classic markup.
  function NormalizeText(value: string, trimBoundary: bool): string {
    TextOf(NormalizeClassic(TextTokens(value), trimBoundary))
  }

  // ---- What normalisation keeps ----------------------------------------------

  predicate Blank(ts: seq<Token>) {
    forall i | 0 <= i < |ts| :: ts[i].Br? || (ts[i].Ch? && IsSpace(ts[i].c))
  }

  // All but breaks and white space: the tags with their attributes, the rules and the visible characters.
  function Marks(ts: seq<Token>): seq<Token> {
    if ts == [] then []
    else (if ts[0].Br? || (ts[0].Ch? && IsSpace(ts[0].c)) then [] else [ts[0]]) + Marks(ts[1..])
  }

  lemma {:induction false} MarksConcat(a: seq<Token>, b: seq<Token>)
    ensures Marks(a + b) == Marks(a) + Marks(b)
  {
    if a == [] {
      assert a + b == b;
    } else {
      assert (a + b)[0] == a[0] && (a + b)[1..] == a[1..] + b;
      MarksConcat(a[1..], b);
    }
  }

  /** The same tags, attributes and visible characters in order, the same nesting in every context, the same depth. */
  ghost predicate Alike(a: seq<Token>, b: seq<Token>) {
    && Marks(a) == Marks(b)
    && (forall stack :: Scan(a, stack) == Scan(b, stack))
    && (forall d :: DepthFrom(a, d) == DepthFrom(b, d))
    && (forall k :: Opens(a, k) <==> Opens(b, k))
    && Visible(a) == Visible(b)
    && (OnlyText(a) ==> OnlyText(b))
  }

  lemma {:induction false} BlankPrefix(blank: seq<Token>, rest: seq<Token>, stack: seq<Kind>, d: int)
    requires Blank(blank)
    ensures Scan(blank + rest, stack) == if Br in blank && Code in stack then Malformed else Scan(rest, stack)
    ensures DepthFrom(blank + rest, d) == DepthFrom(rest, d)
    ensures Visible(blank + rest) == Visible(rest) && Marks(blank + rest) == Marks(rest)
  {
    if blank == [] {
      assert blank + rest == rest;
    } else {
      assert (blank + rest)[0] == blank[0] && (blank + rest)[1..] == blank[1..] + rest;
      assert blank == [blank[0]] + blank[1..];
      BlankPrefix(blank[1..], rest, stack, d);
    }
  }

  lemma BlankOpensNothing(blank: seq<Token>, rest: seq<Token>)
    requires Blank(blank)
    ensures forall k :: Opens(blank + rest, k) <==> Opens(rest, k)
    ensures OnlyText(blank + rest) <==> Br !in blank && OnlyText(rest)
  {
    OpensConcat(blank, rest);
    assert forall k :: !Opens(blank, k);
    if OnlyText(blank + rest) {
      forall i | 0 <= i < |blank| ensures blank[i].Ch? { assert (blank + rest)[i] == blank[i]; }
      forall i | 0 <= i < |rest| ensures rest[i].Ch? { assert (blank + rest)[|blank| + i] == rest[i]; }
    }
  }

  lemma AlikeAfterBlanks(before: seq<Token>, after: seq<Token>, a: seq<Token>, b: seq<Token>)
    requires Blank(before) && Blank(after) && (Br in before <==> Br in after)
    requires Alike(a, b)
    ensures Alike(before + a, after + b)
  {
    forall stack ensures Scan(before + a, stack) == Scan(after + b, stack) {
      BlankPrefix(before, a, stack, 0);
      BlankPrefix(after, b, stack, 0);
    }
    forall d ensures DepthFrom(before + a, d) == DepthFrom(after + b, d) {
      BlankPrefix(before, a, [], d);
      BlankPrefix(after, b, [], d);
    }
    BlankPrefix(before, a, [], 0);
    BlankPrefix(after, b, [], 0);
    BlankOpensNothing(before, a);
    BlankOpensNothing(after, b);
  }

  lemma AlikeAfterToken(t: Token, a: seq<Token>, b: seq<Token>)
    requires Alike(a, b)
    ensures Alike([t] + a, [t] + b)
  {
    var ta, tb := [t] + a, [t] + b;
    assert ta[0] == t == tb[0] && ta[1..] == a && tb[1..] == b;
    forall d ensures DepthFrom(ta, d) == DepthFrom(tb, d) {
      assert DepthFrom(a, d) == DepthFrom(b, d) && DepthFrom(a, d + 1) == DepthFrom(b, d + 1);
      assert DepthFrom(a, d - 1) == DepthFrom(b, d - 1);
    }
    OpensConcat([t], a);
    OpensConcat([t], b);
    VisibleConcat([t], a);
    VisibleConcat([t], b);
    MarksConcat([t], a);
    MarksConcat([t], b);
    if OnlyText(ta) {
      forall i | 0 <= i < |a| ensures a[i].Ch? { assert ta[i + 1] == a[i]; }
      assert t.Ch? && OnlyText(b);
      assert OnlyText(tb);
    }
  }

  lemma {:induction false} OnlyNewlinesBlank(ts: seq<Token>)
    ensures Blank(OnlyNewlines(ts)) && Br !in OnlyNewlines(ts)
  {
    if ts != [] {
      OnlyNewlinesBlank(ts[1..]);
    }
  }

  lemma {:induction false} BreaksCounted(ts: seq<Token>)
    ensures CountBreaks(ts) > 0 <==> Br in ts
  {
    if ts != [] {
      assert ts == [ts[0]] + ts[1..];
      BreaksCounted(ts[1..]);
    }
  }

  lemma RewriteKeepsBlank(p: Pass, run: seq<Token>)
    requires forall i | 0 <= i < |run| :: InRun(p, run[i])
    ensures Blank(run) && Blank(Rewrite(p, run))
    ensures Br in run <==> Br in Rewrite(p, run)
  {
    OnlyNewlinesBlank(run);
    BreaksCounted(run);
  }

  lemma {:induction false} ApplyAlike(p: Pass, ts: seq<Token>)
    ensures Alike(ts, Apply(p, ts))
    decreases |ts|
  {
    if ts != [] {
      var n := RunLength(p, ts);
      if n == 0 {
        ApplyAlike(p, ts[1..]);
        AlikeAfterToken(ts[0], ts[1..], Apply(p, ts[1..]));
        assert ts == [ts[0]] + ts[1..];
      } else {
        ApplyAlike(p, ts[n..]);
        RewriteKeepsBlank(p, ts[..n]);
        AlikeAfterBlanks(ts[..n], Rewrite(p, ts[..n]), ts[n..], Apply(p, ts[n..]));
        assert ts == ts[..n] + ts[n..];
      }
    }
  }

  lemma {:induction false} UnifyNewlinesAlike(ts: seq<Token>)
    ensures Alike(ts, UnifyNewlines(ts))
    decreases |ts|
  {
    if ts != [] {
      if ts[0] == Ch('\r') {
        var n := if |ts| > 1 && ts[1] == Ch('\n') then 2 else 1;
        UnifyNewlinesAlike(ts[n..]);
        AlikeAfterBlanks(ts[..n], [Ch('\n')], ts[n..], UnifyNewlines(ts[n..]));
        assert ts == ts[..n] + ts[n..];
      } else {
        UnifyNewlinesAlike(ts[1..]);
        AlikeAfterToken(ts[0], ts[1..], UnifyNewlines(ts[1..]));
        assert ts == [ts[0]] + ts[1..];
      }
    }
  }

  lemma {:induction false} TrimStartAlike(ts: seq<Token>)
    ensures Alike(ts, TrimStart(ts))
  {
    if ts != [] && ts[0].Ch? && IsSpace(ts[0].c) {
      TrimStartAlike(ts[1..]);
      AlikeAfterBlanks([ts[0]], [], ts[1..], TrimStart(ts[1..]));
      assert ts == [ts[0]] + ts[1..];
      assert [] + TrimStart(ts[1..]) == TrimStart(ts[1..]);
    }
  }

  lemma {:induction false} TrimEndAlike(ts: seq<Token>)
    ensures Alike(ts, TrimEnd(ts))
  {
    if ts != [] && ts[|ts| - 1].Ch? && IsSpace(ts[|ts| - 1].c) {
      var init, last := ts[..|ts| - 1], [ts[|ts| - 1]];
      TrimEndAlike(init);
      assert ts == init + last;
      forall stack ensures Scan(ts, stack) == Scan(init, stack) {
        ScanConcat(init, last, stack);
      }
      forall d ensures DepthFrom(ts, d) == DepthFrom(init, d) { DepthOfLast(init, last[0], d); }
      OpensConcat(init, last);
      VisibleConcat(init, last);
      MarksConcat(init, last);
      assert Marks(init) + [] == Marks(init);
    }
  }

  lemma {:induction false} DepthOfLast(init: seq<Token>, last: Token, d: int)
    requires !last.Open? && !last.Close?
    ensures DepthFrom(init + [last], d) == DepthFrom(init, d)
  {
    if init != [] {
      assert (init + [last])[1..] == init[1..] + [last];
      var e := if init[0].Open? then d + 1 else if init[0].Close? then d - 1 else d;
      DepthOfLast(init[1..], last, e);
    } else {
      assert [] + [last] == [last];
    }
  }

  lemma TrimAlike(ts: seq<Token>)
    ensures Alike(ts, Trim(ts))
  {
    TrimStartAlike(ts);
    TrimEndAlike(TrimStart(ts));
  }

  lemma NormalizeClassicAlike(ts: seq<Token>, trimBoundary: bool)
    ensures Alike(ts, NormalizeClassic(ts, trimBoundary))
  {
    var a := UnifyNewlines(ts);
    var b := Apply(Tabs, a);
    var c := Apply(AroundNewlines, b);
    var d := Apply(Spaces, c);
    UnifyNewlinesAlike(ts);
    ApplyAlike(Tabs, a);
    ApplyAlike(AroundNewlines, b);
    ApplyAlike(Spaces, c);
    ApplyAlike(Newlines, d);
    TrimAlike(Apply(Newlines, d));
  }

  lemma NormalizeRichAlike(ts: seq<Token>, trimBoundary: bool)
    ensures Alike(ts, NormalizeRich(ts, trimBoundary))
  {
    ApplyAlike(Breaks, ts);
    ApplyAlike(Spaces, Apply(Breaks, ts));
    TrimAlike(Apply(Spaces, Apply(Breaks, ts)));
  }

  lemma {:induction false} NonSpaceOfText(ts: seq<Token>)
    ensures NonSpace(TextOf(ts)) == Visible(ts)
  {
    if ts != [] {
      NonSpaceOfText(ts[1..]);
      NonSpaceConcat(if ts[0].Ch? then [ts[0].c] else [], TextOf(ts[1..]));
    }
  }

  // Normalising text drops or changes white space only.
  lemma NormalizeTextKeepsInk(value: string, trimBoundary: bool)
    ensures NonSpace(NormalizeText(value, trimBoundary)) == NonSpace(value)
  {
    NonSpaceOfText(NormalizeClassic(TextTokens(value), trimBoundary));
    NormalizeClassicAlike(TextTokens(value), trimBoundary);
    VisibleOfText(value);
  }
}
