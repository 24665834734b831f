/**
 * What white space comes to. The passes of the normaliser, one after the other,
 * come to one rule: a stretch of blanks becomes one space, a line break, or an
 * empty line, by the number of line breaks in it.
 */
module HtmlSpacing {
  import opened HtmlTokens
  import opened HtmlNormalize

  // Blanks that join and line breaks; any other white space stays as it is.
  predicate IsBlank(t: Token) {
    t.Ch? && (t.c == ' ' || 9 <= t.c as int <= 13 || t.c as int == 160)
  }

  function BlankLength(ts: seq<Token>): (n: nat)
    ensures n <= |ts| && (forall i | 0 <= i < n :: IsBlank(ts[i])) && (n < |ts| ==> !IsBlank(ts[n]))
  {
    if ts == [] || !IsBlank(ts[0]) then 0 else 1 + BlankLength(ts[1..])
  }

  // Line breaks, a carriage return and a line feed behind it counting as one.
  function Lines(ts: seq<Token>): nat {
    if ts == [] then 0
    else if ts[0] == Ch('\n') then 1 + Lines(ts[1..])
    else if ts[0] == Ch('\r') && !(|ts| > 1 && ts[1] == Ch('\n')) then 1 + Lines(ts[1..])
    else Lines(ts[1..])
  }

  function Gap(lines: nat): seq<Token> {
    if lines == 0 then [Ch(' ')] else if lines == 1 then [Ch('\n')] else [Ch('\n'), Ch('\n')]
  }

  /** Every longest stretch of blanks replaced by what its line breaks come to. */
  function Squeezed(ts: seq<Token>): seq<Token>
    decreases |ts|
  {
    if ts == [] then []
    else
      var n := BlankLength(ts);
      if n == 0 then [ts[0]] + Squeezed(ts[1..]) else Gap(Lines(ts[..n])) + Squeezed(ts[n..])
  }

  // ---- Passes take pieces apart ---------------------------------------------------------------

  // `a` and `b` do not share a run of this pass.
  predicate Apart(p: Pass, a: seq<Token>, b: seq<Token>) {
    a == [] || b == [] || !InRun(p, a[|a| - 1]) || !InRun(p, b[0])
  }

  lemma {:induction false} RunOfBoth(p: Pass, a: seq<Token>, b: seq<Token>)
    requires a != [] && Apart(p, a, b)
    ensures RunLength(p, a + b) == RunLength(p, a)
  {
    assert (a + b)[0] == a[0] && (a + b)[1..] == a[1..] + b;
    if InRun(p, a[0]) {
      if |a| == 1 {
        assert a[1..] + b == b;
      } else {
        RunOfBoth(p, a[1..], b);
      }
    }
  }

  lemma NothingApplied(p: Pass)
    ensures Apply(p, []) == []
  {
  }

  // The first run, or the token in front, whatever stands behind.
  lemma ApplyNext(p: Pass, a: seq<Token>, b: seq<Token>) returns (own: seq<Token>, rest: seq<Token>)
    requires a != [] && Apart(p, a, b)
    ensures |rest| < |a| && Apart(p, rest, b)
    ensures Apply(p, a) == own + Apply(p, rest) && Apply(p, a + b) == own + Apply(p, rest + b)
  {
    hide InRun, Rewrite;
    RunOfBoth(p, a, b);
    var n := RunLength(p, a);
    own, rest := if n == 0 then [a[0]] else Rewrite(p, a[..n]), if n == 0 then a[1..] else a[n..];
    assert (a + b)[0] == a[0] && (a + b)[..n] == a[..n];
    assert (if n == 0 then (a + b)[1..] else (a + b)[n..]) == rest + b;
  }

  lemma {:induction false} ApplyBoth(p: Pass, a: seq<Token>, b: seq<Token>)
    requires Apart(p, a, b)
    ensures Apply(p, a + b) == Apply(p, a) + Apply(p, b)
    decreases |a|
  {
    hide InRun, Rewrite, Apply;
    if a == [] {
      NothingApplied(p);
      assert a + b == b && [] + Apply(p, b) == Apply(p, b);
    } else {
      var own, rest := ApplyNext(p, a, b);
      ApplyBoth(p, rest, b);
      assert own + (Apply(p, rest) + Apply(p, b)) == own + Apply(p, rest) + Apply(p, b);
    }
  }

  lemma UnifyNext(a: seq<Token>, b: seq<Token>) returns (own: seq<Token>, rest: seq<Token>)
    requires a != [] && (b == [] || a[|a| - 1] != Ch('\r') || b[0] != Ch('\n'))
    ensures rest == [] || (|rest| < |a| && rest[|rest| - 1] == a[|a| - 1])
    ensures UnifyNewlines(a) == own + UnifyNewlines(rest) && UnifyNewlines(a + b) == own + UnifyNewlines(rest + b)
  {
    var n := if a[0] == Ch('\r') && |a| > 1 && a[1] == Ch('\n') then 2 else 1;
    own, rest := if a[0] == Ch('\r') then [Ch('\n')] else [a[0]], a[n..];
    assert (a + b)[0] == a[0] && (a + b)[n..] == rest + b;
    assert |a| > 1 ==> (a + b)[1] == a[1];
    assert |a| == 1 && b != [] ==> (a + b)[1] == b[0];
  }

  lemma {:induction false} UnifyBoth(a: seq<Token>, b: seq<Token>)
    requires a == [] || b == [] || a[|a| - 1] != Ch('\r') || b[0] != Ch('\n')
    ensures UnifyNewlines(a + b) == UnifyNewlines(a) + UnifyNewlines(b)
    decreases |a|
  {
    if a == [] {
      assert a + b == b && [] + UnifyNewlines(b) == UnifyNewlines(b);
    } else {
      var own, rest := UnifyNext(a, b);
      UnifyBoth(rest, b);
      assert own + (UnifyNewlines(rest) + UnifyNewlines(b)) == own + UnifyNewlines(rest) + UnifyNewlines(b);
    }
  }

  // All passes but the trimming.
  function Passes(ts: seq<Token>): seq<Token> {
    Apply(Newlines, Apply(Spaces, Apply(AroundNewlines, Apply(Tabs, UnifyNewlines(ts)))))
  }

  // The ends of what a pass makes of tokens that start or end outside its runs.
  lemma BlanksRun(p: Pass, t: Token)
    ensures !IsBlank(t) && !p.Breaks? ==> !InRun(p, t)
  {
  }

  lemma FirstApplied(p: Pass, t: Token, ts: seq<Token>)
    requires !IsBlank(t) && !p.Breaks?
    ensures Apply(p, [t] + ts) == [t] + Apply(p, ts)
  {
    assert ([t] + ts)[1..] == ts;
  }

  lemma {:induction false} ApplyEnds(p: Pass, ts: seq<Token>)
    requires ts != []
    ensures !IsBlank(ts[0]) && !p.Breaks? ==> Apply(p, ts) != [] && Apply(p, ts)[0] == ts[0]
    ensures !IsBlank(ts[|ts| - 1]) && !p.Breaks? ==>
              Apply(p, ts) != [] && Apply(p, ts)[|Apply(p, ts)| - 1] == ts[|ts| - 1]
  {
    hide Apply, IsBlank;
    if !p.Breaks? && !IsBlank(ts[0]) {
      assert ts == [ts[0]] + ts[1..];
      FirstApplied(p, ts[0], ts[1..]);
    }
    if !p.Breaks? && !IsBlank(ts[|ts| - 1]) {
      var init, last := ts[..|ts| - 1], ts[|ts| - 1];
      assert ts == init + [last];
      BlanksRun(p, last);
      ApplyBoth(p, init, [last]);
      NothingApplied(p);
      FirstApplied(p, last, []);
      assert [last] + [] == [last];
    }
  }

  lemma {:induction false} UnifyEnds(ts: seq<Token>)
    requires ts != []
    ensures !IsBlank(ts[0]) ==> UnifyNewlines(ts)[0] == ts[0]
    ensures UnifyNewlines(ts) != []
    ensures !IsBlank(ts[|ts| - 1]) ==> UnifyNewlines(ts)[|UnifyNewlines(ts)| - 1] == ts[|ts| - 1]
  {
    var init, last := ts[..|ts| - 1], [ts[|ts| - 1]];
    assert ts == init + last && last[1..] == [];
    if !IsBlank(last[0]) {
      UnifyBoth(init, last);
      assert UnifyNewlines(last) == last + UnifyNewlines([]) == last;
    }
  }

  // A token that is no blank, before anything.
  lemma PassesToken(t: Token, rest: seq<Token>)
    requires !IsBlank(t)
    ensures Passes([t] + rest) == [t] + Passes(rest)
  {
    hide InRun, IsBlank, Apply, UnifyNewlines;
    var a := [t];
    SolidToken(t);
    UnifyBoth(a, rest);
    var b := UnifyNewlines(rest);
    ApplyBoth(Tabs, a, b);
    var c := Apply(Tabs, b);
    ApplyBoth(AroundNewlines, a, c);
    var d := Apply(AroundNewlines, c);
    ApplyBoth(Spaces, a, d);
    ApplyBoth(Newlines, a, Apply(Spaces, d));
  }

  lemma SolidToken(t: Token)
    requires !IsBlank(t)
    ensures forall p: Pass | !p.Breaks? :: !InRun(p, t) && Apply(p, [t]) == [t]
    ensures UnifyNewlines([t]) == [t] && t != Ch('\r') && t != Ch('\n')
  {
    assert [t][1..] == [];
    forall p: Pass | !p.Breaks? ensures !InRun(p, t) && Apply(p, [t]) == [t] {
      assert !InRun(p, t);
      assert Apply(p, [t]) == [t] + Apply(p, []) == [t];
    }
  }

  // ---- A stretch of blanks ------------------------------------------------------------------

  predicate AllBlank(ts: seq<Token>) {
    forall i | 0 <= i < |ts| :: IsBlank(ts[i])
  }

  // What the passes make of nothing but blanks: line feeds and spaces, in the end one of them.
  predicate Between(ts: seq<Token>) {
    forall i | 0 <= i < |ts| :: ts[i] == Ch(' ') || ts[i] == Ch('\n')
  }

  lemma {:induction false} UnifiedBlanks(ts: seq<Token>)
    requires AllBlank(ts)
    ensures var u := UnifyNewlines(ts);
            AllBlank(u) && Ch('\r') !in u && Lines(u) == Lines(ts) && (u == [] <==> ts == [])
    decreases |ts|
  {
    if ts != [] {
      var n := if ts[0] == Ch('\r') && |ts| > 1 && ts[1] == Ch('\n') then 2 else 1;
      assert AllBlank(ts[n..]);
      UnifiedBlanks(ts[n..]);
      var u := UnifyNewlines(ts);
      assert u[1..] == UnifyNewlines(ts[n..]);
      if n == 2 {
        assert ts[1..][1..] == ts[2..] && Lines(ts[1..]) == 1 + Lines(ts[2..]);
      }
    }
  }

  lemma {:induction false} TabbedBlanks(ts: seq<Token>)
    requires AllBlank(ts) && Ch('\r') !in ts
    ensures var u := Apply(Tabs, ts); Between(u) && Lines(u) == Lines(ts) && (u == [] <==> ts == [])
    decreases |ts|
  {
    hide InRun, Lines, AllBlank, Between, IsBlank;
    if ts == [] {
      NothingTabbed();
    } else {
      var n := RunLength(Tabs, ts);
      var first, rest := if n == 0 then [ts[0]] else ts[..n], if n == 0 then ts[1..] else ts[n..];
      var v := Apply(Tabs, rest);
      assert ts == first + rest;
      BlankParts(first, rest);
      TabbedBlanks(rest);
      if n == 0 {
        OneBlank(ts[0]);
        BlankOutsideTabs(ts[0]);
        FirstLine(ts[0], rest, v);
        BetweenMore(ts[0], v);
      } else {
        TabsAreNoLines(first);
        NoLines(first, rest);
        NoLines([Ch(' ')], v);
        BetweenMore(Ch(' '), v);
      }
    }
  }

  lemma NothingTabbed()
    ensures Apply(Tabs, []) == [] && Between([])
  {
  }

  lemma BlankParts(a: seq<Token>, b: seq<Token>)
    requires AllBlank(a + b) && Ch('\r') !in a + b
    ensures AllBlank(a) && AllBlank(b) && Ch('\r') !in a && Ch('\r') !in b
  {
    assert forall i | 0 <= i < |a| :: (a + b)[i] == a[i];
    assert forall i | 0 <= i < |b| :: (a + b)[|a| + i] == b[i];
  }

  lemma OneBlank(t: Token)
    requires AllBlank([t]) && Ch('\r') !in [t]
    ensures IsBlank(t) && t != Ch('\r')
  {
    assert [t][0] == t;
  }

  lemma BetweenMore(t: Token, ts: seq<Token>)
    requires Between(ts) && (t == Ch(' ') || t == Ch('\n'))
    ensures Between([t] + ts)
  {
  }

  lemma TabsAreNoLines(ts: seq<Token>)
    requires forall i | 0 <= i < |ts| :: InRun(Tabs, ts[i])
    ensures forall i | 0 <= i < |ts| :: ts[i] != Ch('\n') && ts[i] != Ch('\r')
  {
    forall i | 0 <= i < |ts| ensures ts[i] != Ch('\n') && ts[i] != Ch('\r') { TabIsNoLine(ts[i]); }
  }

  lemma BlankOutsideTabs(t: Token)
    requires IsBlank(t) && !InRun(Tabs, t) && t != Ch('\r')
    ensures t == Ch(' ') || t == Ch('\n')
  {
  }

  lemma TabIsNoLine(t: Token)
    requires InRun(Tabs, t)
    ensures t != Ch('\n') && t != Ch('\r')
  {
  }

  lemma FirstLine(t: Token, a: seq<Token>, b: seq<Token>)
    requires t != Ch('\r') && Lines(a) == Lines(b)
    ensures Lines([t] + a) == Lines([t] + b)
  {
    assert ([t] + a)[1..] == a && ([t] + b)[1..] == b;
  }

  lemma {:induction false} NoLines(a: seq<Token>, b: seq<Token>)
    requires forall i | 0 <= i < |a| :: a[i] != Ch('\n') && a[i] != Ch('\r')
    ensures Lines(a + b) == Lines(b)
  {
    if a == [] {
      assert a + b == b;
    } else {
      assert (a + b)[1..] == a[1..] + b;
      NoLines(a[1..], b);
    }
  }

  lemma {:induction false} WholeRun(p: Pass, ts: seq<Token>)
    requires forall i | 0 <= i < |ts| :: InRun(p, ts[i])
    ensures RunLength(p, ts) == |ts| && (ts != [] ==> Apply(p, ts) == Rewrite(p, ts))
  {
    if ts != [] {
      WholeRun(p, ts[1..]);
      assert ts[..|ts|] == ts && ts[|ts|..] == [];
      assert Rewrite(p, ts) + [] == Rewrite(p, ts);
    }
  }

  lemma {:induction false} NewlinesOf(ts: seq<Token>)
    requires Between(ts)
    ensures var u := OnlyNewlines(ts);
            |u| == Lines(ts) && (forall i | 0 <= i < |u| :: u[i] == Ch('\n')) && (Lines(ts) == 0 <==> Ch('\n') !in ts)
  {
    if ts != [] {
      NewlinesOf(ts[1..]);
      assert ts == [ts[0]] + ts[1..];
    }
  }

  lemma LineFeeds(ts: seq<Token>)
    requires forall i | 0 <= i < |ts| :: ts[i] == Ch('\n')
    ensures Apply(Spaces, ts) == ts && (ts != [] ==> Apply(Newlines, ts) == Gap(|ts|))
  {
    Untouched(Spaces, ts);
    WholeRun(Newlines, ts);
  }

  lemma {:induction false} Untouched(p: Pass, ts: seq<Token>)
    requires forall i | 0 <= i < |ts| :: !InRun(p, ts[i])
    ensures Apply(p, ts) == ts
  {
    if ts != [] {
      Untouched(p, ts[1..]);
      assert ts == [ts[0]] + ts[1..];
    }
  }

  // Line feeds and spaces alone: the last three passes.
  lemma SettledBlanks(ts: seq<Token>)
    requires Between(ts) && ts != []
    ensures Apply(Newlines, Apply(Spaces, Apply(AroundNewlines, ts))) == Gap(Lines(ts))
  {
    hide Apply, Lines;
    WholeRun(AroundNewlines, ts);
    NewlinesOf(ts);
    if Lines(ts) > 0 {
      LineFeeds(OnlyNewlines(ts));
    } else {
      assert forall i | 0 <= i < |ts| :: ts[i] in ts;
      WholeRun(Spaces, ts);
      Untouched(Newlines, [Ch(' ')]);
    }
  }

  lemma PassesBlanks(ts: seq<Token>)
    requires AllBlank(ts) && ts != []
    ensures Passes(ts) == Gap(Lines(ts))
  {
    hide Apply, UnifyNewlines, Lines, AllBlank, Between;
    UnifiedBlanks(ts);
    TabbedBlanks(UnifyNewlines(ts));
    SettledBlanks(Apply(Tabs, UnifyNewlines(ts)));
  }

  // ---- The rule -------------------------------------------------------------------------------

  // A stretch of blanks before a token that is none.
  lemma PassesStretch(blanks: seq<Token>, t: Token, rest: seq<Token>)
    requires AllBlank(blanks) && !IsBlank(t)
    ensures Passes(blanks + ([t] + rest)) == Passes(blanks) + Passes([t] + rest)
  {
    hide InRun, IsBlank, Apply, UnifyNewlines;
    var a, b := blanks, [t] + rest;
    SolidToken(t);
    UnifyBoth(a, b);
    UnifyEnds(b);
    var a1, b1 := UnifyNewlines(a), UnifyNewlines(b);
    ApplyBoth(Tabs, a1, b1);
    ApplyEnds(Tabs, b1);
    var a2, b2 := Apply(Tabs, a1), Apply(Tabs, b1);
    ApplyBoth(AroundNewlines, a2, b2);
    ApplyEnds(AroundNewlines, b2);
    var a3, b3 := Apply(AroundNewlines, a2), Apply(AroundNewlines, b2);
    ApplyBoth(Spaces, a3, b3);
    ApplyEnds(Spaces, b3);
    ApplyBoth(Newlines, Apply(Spaces, a3), Apply(Spaces, b3));
  }

  /**
   * For every markup and every text: the five passes come to the one rule.
   * Trimming then takes white space from both ends.
   */
  lemma {:induction false} PassesSqueeze(ts: seq<Token>)
    ensures Passes(ts) == Squeezed(ts)
    decreases |ts|
  {
    hide IsBlank, Lines, Gap, Passes;
    var n := BlankLength(ts);
    if ts == [] {
      assert Passes([]) == [] by { NoPasses(); }
    } else if n == 0 {
      PassesToken(ts[0], ts[1..]);
      PassesSqueeze(ts[1..]);
      assert ts == [ts[0]] + ts[1..];
    } else {
      var blanks, rest := ts[..n], ts[n..];
      assert ts == blanks + rest;
      PassesBlanks(blanks);
      PassesSqueeze(rest);
      if rest == [] {
        assert blanks + rest == blanks && Gap(Lines(blanks)) + [] == Gap(Lines(blanks));
      } else {
        PassesStretch(blanks, rest[0], rest[1..]);
        assert rest == [rest[0]] + rest[1..];
      }
    }
  }

  lemma NoPasses()
    ensures Passes([]) == []
  {
  }

  lemma NormalizeClassicSqueezes(ts: seq<Token>, trim: bool)
    ensures NormalizeClassic(ts, trim) == if trim then Trim(Squeezed(ts)) else Squeezed(ts)
  {
    PassesSqueeze(ts);
  }

  // ---- The rich form --------------------------------------------------------------------------

  predicate IsLoose(t: Token) {
    t.Br? || (t.Ch? && IsSpace(t.c))
  }

  function LooseLength(ts: seq<Token>): (n: nat)
    ensures n <= |ts| && (forall i | 0 <= i < n :: IsLoose(ts[i])) && (n < |ts| ==> !IsLoose(ts[n]))
  {
    if ts == [] || !IsLoose(ts[0]) then 0 else 1 + LooseLength(ts[1..])
  }

  // Of spaces in a row, one stays.
  function SingleSpaces(ts: seq<Token>): seq<Token> {
    if ts == [] then []
    else
      (if ts[0] == Ch(' ') && |ts| > 1 && ts[1] == Ch(' ') then [] else [ts[0]]) + SingleSpaces(ts[1..])
  }

  /** Three breaks or more, with white space around them, become two; of spaces in a row, one stays. */
  function RichSqueezed(ts: seq<Token>): seq<Token>
    decreases |ts|
  {
    if ts == [] then []
    else
      var n := LooseLength(ts);
      if n == 0 then [ts[0]] + RichSqueezed(ts[1..])
      else (if |Breaks(ts[..n])| > 2 then [Br, Br] else SingleSpaces(ts[..n])) + RichSqueezed(ts[n..])
  }

  function Breaks(ts: seq<Token>): seq<Token> {
    if ts == [] then [] else (if ts[0] == Br then [Br] else []) + Breaks(ts[1..])
  }

  lemma {:induction false} BreaksAreCounted(ts: seq<Token>)
    ensures CountBreaks(ts) == |Breaks(ts)|
  {
    if ts != [] {
      BreaksAreCounted(ts[1..]);
    }
  }

  lemma {:induction false} LooseRun(ts: seq<Token>)
    ensures RunLength(Pass.Breaks, ts) == LooseLength(ts)
  {
    if ts != [] {
      LooseRun(ts[1..]);
    }
  }

  lemma {:induction false} SpacesAreSingled(ts: seq<Token>)
    ensures Apply(Spaces, ts) == SingleSpaces(ts)
    decreases |ts|
  {
    if ts != [] {
      var n := RunLength(Spaces, ts);
      if n == 0 {
        SpacesAreSingled(ts[1..]);
      } else {
        SpacesAreSingled(ts[n..]);
        RunEnds(Spaces, ts);
        SpacesFirst(ts, n);
      }
    }
  }

  lemma {:induction false} RunEnds(p: Pass, ts: seq<Token>)
    ensures RunLength(p, ts) < |ts| ==> !InRun(p, ts[RunLength(p, ts)])
  {
    if ts != [] && InRun(p, ts[0]) {
      RunEnds(p, ts[1..]);
    }
  }

  lemma {:induction false} SpacesFirst(ts: seq<Token>, n: nat)
    requires 0 < n <= |ts| && (forall i | 0 <= i < n :: ts[i] == Ch(' ')) && (n < |ts| ==> ts[n] != Ch(' '))
    ensures SingleSpaces(ts) == [Ch(' ')] + SingleSpaces(ts[n..])
  {
    if n > 1 {
      SpacesFirst(ts[1..], n - 1);
      assert ts[1..][n - 1..] == ts[n..];
      assert [] + SingleSpaces(ts[1..]) == SingleSpaces(ts[1..]);
    }
  }

  // The first token of a form, if it is neither break nor white space.
  lemma FirstStays(ts: seq<Token>)
    requires ts != [] && !IsLoose(ts[0])
    ensures Apply(Pass.Breaks, ts) != [] && Apply(Pass.Breaks, ts)[0] == ts[0]
  {
  }

  lemma SpacesBehind(run: seq<Token>, ts: seq<Token>)
    requires ts == [] || !IsLoose(ts[0])
    ensures Apply(Spaces, run + Apply(Pass.Breaks, ts)) == Apply(Spaces, run) + Apply(Spaces, Apply(Pass.Breaks, ts))
  {
    if ts != [] {
      FirstStays(ts);
    }
    ApplyBoth(Spaces, run, Apply(Pass.Breaks, ts));
  }

  /** For every markup: the two passes of the rich form come to the one rule. */
  lemma {:induction false} RichPassesSqueeze(ts: seq<Token>)
    ensures Apply(Spaces, Apply(Pass.Breaks, ts)) == RichSqueezed(ts)
    decreases |ts|
  {
    hide IsLoose, SingleSpaces, InRun;
    var n := LooseLength(ts);
    LooseRun(ts);
    if ts == [] {
      NothingSqueezed();
    } else if n == 0 {
      RichPassesSqueeze(ts[1..]);
      TokenSqueezed(ts[0], Apply(Pass.Breaks, ts[1..]));
    } else {
      var run, rest := Rewrite(Pass.Breaks, ts[..n]), ts[n..];
      RichPassesSqueeze(rest);
      SpacesBehind(run, rest);
      BreaksAreCounted(ts[..n]);
      TwoBreaks();
      SpacesAreSingled(ts[..n]);
    }
  }

  lemma NothingSqueezed()
    ensures Apply(Spaces, Apply(Pass.Breaks, [])) == []
  {
  }

  lemma TwoBreaks()
    ensures Apply(Spaces, [Br, Br]) == [Br, Br]
  {
    Untouched(Spaces, [Br, Br]);
  }

  lemma TokenSqueezed(t: Token, ts: seq<Token>)
    requires !IsLoose(t)
    ensures Apply(Spaces, [t] + ts) == [t] + Apply(Spaces, ts)
  {
    assert ([t] + ts)[1..] == ts;
  }

  lemma NormalizeRichSqueezes(ts: seq<Token>, trim: bool)
    ensures NormalizeRich(ts, trim) == if trim then Trim(RichSqueezed(ts)) else RichSqueezed(ts)
  {
    RichPassesSqueeze(ts);
  }

  // ---- Trimming -------------------------------------------------------------------------------

  /** What counts as white space: WhiteSpace and LineTerminator of sections 12.2 and 12.3 of ECMA-262. */
  lemma SpaceByCode(c: char)
    ensures var n := c as int;
            IsSpace(c) <==>
            9 <= n <= 13 || n == 0x20 || n == 0xa0 || n == 0xfeff || n == 0x2028 || n == 0x2029
            || n == 0x1680 || 0x2000 <= n <= 0x200a || n == 0x202f || n == 0x205f || n == 0x3000
  {
  }

  predicate AllSpace(ts: seq<Token>) {
    forall t | t in ts :: t.Ch? && IsSpace(t.c)
  }

  // No white space at either end.
  predicate IsCore(ts: seq<Token>) {
    ts != [] && (ts[0].Ch? ==> !IsSpace(ts[0].c)) && (ts[|ts| - 1].Ch? ==> !IsSpace(ts[|ts| - 1].c))
  }

  lemma {:induction false} TrimStartCuts(before: seq<Token>, rest: seq<Token>)
    requires AllSpace(before)
    ensures TrimStart(before + rest) == TrimStart(rest)
  {
    if before == [] {
      assert before + rest == rest;
    } else {
      assert (before + rest)[0] == before[0] && (before + rest)[1..] == before[1..] + rest;
      TrimStartCuts(before[1..], rest);
    }
  }

  lemma {:induction false} TrimEndCuts(core: seq<Token>, after: seq<Token>)
    requires AllSpace(after)
    ensures TrimEnd(core + after) == TrimEnd(core)
  {
    if after == [] {
      assert core + after == core;
    } else {
      var n := |after| - 1;
      assert (core + after)[|core| + n] == after[n] && (core + after)[..|core| + n] == core + after[..n];
      TrimEndCuts(core, after[..n]);
    }
  }

  /** Trimming takes the white space at both ends, all of it and nothing else. */
  lemma TrimCuts(before: seq<Token>, core: seq<Token>, after: seq<Token>)
    requires AllSpace(before) && AllSpace(after) && (core == [] || IsCore(core))
    ensures Trim(before + core + after) == core
  {
    assert before + core + after == before + (core + after);
    TrimStartCuts(before, core + after);
    if core == [] {
      assert core + after == after + [];
      TrimStartCuts(after, []);
    } else {
      assert (core + after)[0] == core[0];
      TrimEndCuts(core, after);
    }
  }

  predicate IsSpaces(text: string) {
    forall c | c in text :: IsSpace(c)
  }

  lemma SpaceTokens(text: string)
    requires IsSpaces(text)
    ensures AllSpace(TextTokens(text))
  {
    hide IsSpace;
  }

  lemma TokensJoined(a: string, b: string)
    ensures TextTokens(a + b) == TextTokens(a) + TextTokens(b)
  {
    hide TextTokens;
  }

  lemma TrimmedText(before: string, value: string, after: string)
    requires IsSpaces(before) && IsSpaces(after)
    requires value == [] || (!IsSpace(value[0]) && !IsSpace(value[|value| - 1]))
    ensures TextOf(Trim(TextTokens(before + value + after))) == value
  {
    hide IsSpaces, IsSpace, AllSpace, Trim, TextOf, TextTokens;
    SpaceTokens(before);
    SpaceTokens(after);
    TokensJoined(before, value);
    TokensJoined(before + value, after);
    TrimCuts(TextTokens(before), TextTokens(value), TextTokens(after));
    TextOfText(value);
  }
}
