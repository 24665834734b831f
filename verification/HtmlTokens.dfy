/**
 * Rendered markup as tokens: an opening or closing tag, a line break, a rule,
 * or one visible character before escaping. All tags but one belong to the
 * closed set Telegram knows; `HtmlRawTag` says when that one is written. `Serialize`
 * writes the tokens out as the string the renderers build; `Lex` shows that
 * the string splits back into exactly these tokens, whatever the characters
 * and attribute values are.
 */
module HtmlTokens {
  import opened HtmlEscape

  /** `Native` is the tag the renderer writes for an element named `constructor`. */
  datatype Kind =
    | P | H(level: int) | Pre | Ol | Ul | Li | Blockquote | Footer
    | Table | Caption | Tr | Td | Th
    | B | I | U | S | Code | A | Native

  datatype AttrName = Href | Start | Colspan | Rowspan | Align | Valign
  datatype Attr = Valued(name: AttrName, value: string) | Bordered | Compact

  datatype Token =
    | Open(kind: Kind, attrs: seq<Attr>)
    | Close(kind: Kind)
    | Br
    | Hr
    | Ch(c: char)

  // ---- Visible text -------------------------------------------------------

  // The white space of ECMAScript regular expressions (`\s`) and of `trim`.
  predicate IsSpace(c: char) {
    c == ' ' || '\t' <= c <= '\r' || c == '\U{a0}' || c == '\U{1680}' || '\U{2000}' <= c <= '\U{200a}'
    || c == '\U{2028}' || c == '\U{2029}' || c == '\U{202f}' || c == '\U{205f}' || c == '\U{3000}' || c == '\U{feff}'
  }

  function TextTokens(text: string): (r: seq<Token>)
    ensures |r| == |text| && forall i | 0 <= i < |r| :: r[i] == Ch(text[i])
  {
    if text == [] then [] else [Ch(text[0])] + TextTokens(text[1..])
  }

  // The characters a reader sees, without white space.
  function Visible(ts: seq<Token>): string {
    if ts == [] then []
    else (if ts[0].Ch? && !IsSpace(ts[0].c) then [ts[0].c] else []) + Visible(ts[1..])
  }

  function NonSpace(s: string): string {
    if s == [] then [] else (if IsSpace(s[0]) then [] else [s[0]]) + NonSpace(s[1..])
  }

  lemma {:induction false} VisibleConcat(a: seq<Token>, b: seq<Token>)
    ensures Visible(a + b) == Visible(a) + Visible(b)
  {
    if a == [] {
      assert a + b == b;
    } else {
      assert (a + b)[1..] == a[1..] + b;
      VisibleConcat(a[1..], b);
    }
  }

  lemma {:induction false} NonSpaceConcat(a: string, b: string)
    ensures NonSpace(a + b) == NonSpace(a) + NonSpace(b)
  {
    if a == [] {
      assert a + b == b;
    } else {
      assert (a + b)[1..] == a[1..] + b;
      NonSpaceConcat(a[1..], b);
    }
  }

  lemma {:induction false} VisibleOfText(text: string)
    ensures Visible(TextTokens(text)) == NonSpace(text)
  {
    if text != [] {
      VisibleOfText(text[1..]);
    }
  }

  // All characters shown, white space included.
  function TextOf(ts: seq<Token>): string {
    if ts == [] then [] else (if ts[0].Ch? then [ts[0].c] else []) + TextOf(ts[1..])
  }

  lemma {:induction false} TextOfConcat(a: seq<Token>, b: seq<Token>)
    ensures TextOf(a + b) == TextOf(a) + TextOf(b)
  {
    if a == [] {
      assert a + b == b;
    } else {
      assert (a + b)[0] == a[0] && (a + b)[1..] == a[1..] + b;
      TextOfConcat(a[1..], b);
      var own := if a[0].Ch? then [a[0].c] else [];
      assert own + (TextOf(a[1..]) + TextOf(b)) == own + TextOf(a[1..]) + TextOf(b);
    }
  }

  lemma {:induction false} TextOfText(text: string)
    ensures TextOf(TextTokens(text)) == text
  {
    if text != [] {
      TextOfText(text[1..]);
      assert TextTokens(text)[1..] == TextTokens(text[1..]);
    }
  }

  // ---- Nesting ------------------------------------------------------------

  predicate IsInlineKind(k: Kind) {
    k.A? || k.Code? || k.B? || k.I? || k.U? || k.S? || k.Native?
  }

  predicate IsContainer(k: Kind) {
    k.Ol? || k.Ul? || k.Table? || k.Tr?
  }

  // The innermost open element, if any, holds text and not items, rows or cells.
  predicate HoldsContent(stack: seq<Kind>) {
    stack == [] || !IsContainer(stack[|stack| - 1])
  }

  // Items in lists, rows and captions in tables, cells in rows, other blocks at the top, inline elements in content.
  predicate HasPlace(k: Kind, stack: seq<Kind>) {
    if IsInlineKind(k) then HoldsContent(stack)
    else if stack == [] then !k.Li? && !k.Caption? && !k.Tr? && !k.Td? && !k.Th?
    else
      var top := stack[|stack| - 1];
      if k.Li? then top.Ol? || top.Ul?
      else if k.Caption? || k.Tr? then top.Table?
      else (k.Td? || k.Th?) && top.Tr?
  }

  /**
   * What may open under the open elements `stack`: what has its place there,
   * nothing inside <code>, and neither a link nor <code> inside a link (a
   * Telegram link entity cannot contain another entity of those kinds).
   */
  predicate MayOpen(k: Kind, stack: seq<Kind>) {
    HasPlace(k, stack) && Code !in stack && (k == A || k == Code ==> A !in stack)
  }

  datatype Scanned = Malformed | Stack(open: seq<Kind>)

  // Read the tokens against the stack of open elements; Malformed at the first bad one.
  function Scan(ts: seq<Token>, stack: seq<Kind>): Scanned {
    if ts == [] then Stack(stack)
    else match ts[0]
      case Open(k, _) => if MayOpen(k, stack) then Scan(ts[1..], stack + [k]) else Malformed
      case Close(k) =>
        if stack != [] && stack[|stack| - 1] == k then Scan(ts[1..], stack[..|stack| - 1]) else Malformed
      case Br => if Code in stack then Malformed else Scan(ts[1..], stack)
      case Hr => if Code in stack then Malformed else Scan(ts[1..], stack)
      case Ch(_) => Scan(ts[1..], stack)
  }

  // Balanced and properly nested, starting and ending with nothing open.
  predicate WellFormed(ts: seq<Token>) {
    Scan(ts, []) == Stack([])
  }

  function Max(a: int, b: int): int {
    if a < b then b else a
  }

  // The deepest nesting met while reading from depth `d`.
  function DepthFrom(ts: seq<Token>, d: int): int {
    if ts == [] then d
    else if ts[0].Open? then Max(d, DepthFrom(ts[1..], d + 1))
    else if ts[0].Close? then Max(d, DepthFrom(ts[1..], d - 1))
    else DepthFrom(ts[1..], d)
  }

  function Depth(ts: seq<Token>): int {
    DepthFrom(ts, 0)
  }

  predicate Opens(ts: seq<Token>, k: Kind) {
    exists i :: 0 <= i < |ts| && ts[i].Open? && ts[i].kind == k
  }

  // Every tag is one Telegram knows.
  predicate ClosedTags(ts: seq<Token>) {
    !Opens(ts, Native)
  }

  // Only characters: no tag, no break.
  predicate OnlyText(ts: seq<Token>) {
    forall i | 0 <= i < |ts| :: ts[i].Ch?
  }

  lemma {:induction false} ScanConcat(a: seq<Token>, b: seq<Token>, stack: seq<Kind>)
    ensures Scan(a + b, stack) ==
            match Scan(a, stack) case Malformed => Malformed case Stack(s) => Scan(b, s)
  {
    if a == [] {
      assert a + b == b;
    } else {
      assert (a + b)[0] == a[0] && (a + b)[1..] == a[1..] + b;
      match a[0]
      case Open(k, _) => ScanConcat(a[1..], b, stack + [k]);
      case Close(k) => if stack != [] { ScanConcat(a[1..], b, stack[..|stack| - 1]); }
      case _ => ScanConcat(a[1..], b, stack);
    }
  }

  // A fragment that scans on its own scans the same inside open elements that allow it.
  lemma {:induction false} ScanInside(ts: seq<Token>, base: seq<Kind>, stack: seq<Kind>)
    requires Scan(ts, stack).Stack?
    requires Code !in base && HoldsContent(base) && forall k :: Opens(ts, k) ==> IsInlineKind(k)
    requires A in base ==> !Opens(ts, A) && !Opens(ts, Code)
    ensures Scan(ts, base + stack) == Stack(base + Scan(ts, stack).open)
  {
    if ts != [] {
      var rest := ts[1..];
      assert forall k :: Opens(rest, k) ==> Opens(ts, k) by {
        forall k | Opens(rest, k) ensures Opens(ts, k) {
          var i :| 0 <= i < |rest| && rest[i].Open? && rest[i].kind == k;
          assert ts[i + 1] == rest[i];
        }
      }
      match ts[0]
      case Open(k, _) =>
        assert Opens(ts, k);
        assert HoldsContent(base + stack);
        assert base + stack + [k] == base + (stack + [k]);
        ScanInside(rest, base, stack + [k]);
      case Close(k) =>
        assert (base + stack)[..|base + stack| - 1] == base + stack[..|stack| - 1];
        ScanInside(rest, base, stack[..|stack| - 1]);
      case _ => ScanInside(rest, base, stack);
    }
  }

  // Tokens that leave the open elements `base` as they are.
  predicate Fits(ts: seq<Token>, base: seq<Kind>) {
    Scan(ts, base) == Stack(base)
  }

  lemma FitsInside(ts: seq<Token>, base: seq<Kind>)
    requires WellFormed(ts) && forall k :: Opens(ts, k) ==> IsInlineKind(k)
    requires Code !in base && HoldsContent(base)
    requires A in base ==> !Opens(ts, A) && !Opens(ts, Code)
    ensures Fits(ts, base)
  {
    ScanInside(ts, base, []);
    assert base + [] == base;
  }

  lemma {:induction false} ScanText(ts: seq<Token>, stack: seq<Kind>)
    requires OnlyText(ts)
    ensures Scan(ts, stack) == Stack(stack)
    ensures forall d :: DepthFrom(ts, d) == d
    ensures forall k :: !Opens(ts, k)
  {
    if ts != [] {
      assert OnlyText(ts[1..]);
      ScanText(ts[1..], stack);
    }
  }

  lemma FitsConcat(a: seq<Token>, b: seq<Token>, base: seq<Kind>)
    requires Fits(a, base) && Fits(b, base)
    ensures Fits(a + b, base)
    ensures Depth(a + b) == Max(Depth(a), Depth(b))
  {
    ScanConcat(a, b, base);
    DepthConcat(a, b, base, 0);
  }

  lemma WellFormedConcat(a: seq<Token>, b: seq<Token>)
    requires WellFormed(a) && WellFormed(b)
    ensures WellFormed(a + b)
    ensures Depth(a + b) == Max(Depth(a), Depth(b))
  {
    FitsConcat(a, b, []);
  }

  // Depth of a concatenation: the second part starts where the first one leaves the stack.
  lemma {:induction false} DepthConcat(a: seq<Token>, b: seq<Token>, stack: seq<Kind>, d: int)
    requires Scan(a, stack).Stack?
    ensures DepthFrom(a + b, d) == Max(DepthFrom(a, d), DepthFrom(b, d + |Scan(a, stack).open| - |stack|))
  {
    if a == [] {
      assert a + b == b;
      DepthAtLeast(b, d);
    } else {
      assert (a + b)[0] == a[0] && (a + b)[1..] == a[1..] + b;
      match a[0]
      case Open(k, _) => DepthConcat(a[1..], b, stack + [k], d + 1);
      case Close(k) => DepthConcat(a[1..], b, stack[..|stack| - 1], d - 1);
      case _ => DepthConcat(a[1..], b, stack, d);
    }
  }

  lemma {:induction false} DepthAtLeast(ts: seq<Token>, d: int)
    ensures DepthFrom(ts, d) >= d
  {
    if ts != [] && !ts[0].Open? && !ts[0].Close? {
      DepthAtLeast(ts[1..], d);
    }
  }

  lemma {:induction false} DepthShift(ts: seq<Token>, d: int)
    ensures DepthFrom(ts, d) == d + Depth(ts)
    decreases |ts|
  {
    if ts != [] {
      var rest := ts[1..];
      if ts[0].Open? {
        DepthShift(rest, d + 1);
        DepthShift(rest, 1);
      } else if ts[0].Close? {
        DepthShift(rest, d - 1);
        DepthShift(rest, -1);
      } else {
        DepthShift(rest, d);
      }
    }
  }

  function Wrap(k: Kind, attrs: seq<Attr>, inner: seq<Token>): seq<Token> {
    [Open(k, attrs)] + inner + [Close(k)]
  }

  // An element around tokens that fit inside it.
  lemma WrapFits(k: Kind, attrs: seq<Attr>, inner: seq<Token>, base: seq<Kind>)
    requires MayOpen(k, base) && Fits(inner, base + [k])
    ensures Fits(Wrap(k, attrs, inner), base)
    ensures Depth(Wrap(k, attrs, inner)) == 1 + Depth(inner)
    ensures Visible(Wrap(k, attrs, inner)) == Visible(inner)
    ensures forall j :: Opens(Wrap(k, attrs, inner), j) <==> j == k || Opens(inner, j)
  {
    var open, close := [Open(k, attrs)], [Close(k)];
    var body := inner + close;
    assert Wrap(k, attrs, inner) == open + body;
    ScanConcat(inner, close, base + [k]);
    ScanConcat(open, body, base);
    assert (base + [k])[..|base|] == base;
    DepthConcat(inner, close, base + [k], 1);
    DepthShift(inner, 1);
    DepthAtLeast(inner, 0);
    VisibleConcat(inner, close);
    VisibleConcat(open, body);
    OpensConcat(inner, close);
    OpensConcat(open, body);
    assert forall j :: Opens(open, j) <==> j == k by { assert open[0].Open?; }
  }

  // An inline element around a well-formed inline fragment it may contain.
  lemma WrapWellFormed(k: Kind, attrs: seq<Attr>, inner: seq<Token>)
    requires IsInlineKind(k)
    requires k != Code ==> WellFormed(inner) && forall j :: Opens(inner, j) ==> IsInlineKind(j)
    requires k == Code ==> OnlyText(inner)
    requires k == A ==> !Opens(inner, A) && !Opens(inner, Code)
    ensures WellFormed(Wrap(k, attrs, inner))
    ensures Depth(Wrap(k, attrs, inner)) == 1 + Depth(inner)
    ensures Visible(Wrap(k, attrs, inner)) == Visible(inner)
    ensures forall j :: Opens(Wrap(k, attrs, inner), j) <==> j == k || Opens(inner, j)
  {
    if k == Code {
      ScanText(inner, [k]);
    } else {
      FitsInside(inner, [k]);
    }
    assert [] + [k] == [k];
    WrapFits(k, attrs, inner, []);
  }

  lemma OpensConcat(a: seq<Token>, b: seq<Token>)
    ensures forall k :: Opens(a + b, k) <==> Opens(a, k) || Opens(b, k)
  {
    forall k ensures Opens(a + b, k) <==> Opens(a, k) || Opens(b, k) {
      if Opens(a, k) {
        var i :| 0 <= i < |a| && a[i].Open? && a[i].kind == k;
        assert (a + b)[i] == a[i];
      }
      if Opens(b, k) {
        var i :| 0 <= i < |b| && b[i].Open? && b[i].kind == k;
        assert (a + b)[|a| + i] == b[i];
      }
      if Opens(a + b, k) {
        var i :| 0 <= i < |a + b| && (a + b)[i].Open? && (a + b)[i].kind == k;
        assert if i < |a| then a[i].Open? && a[i].kind == k else b[i - |a|].Open? && b[i - |a|].kind == k;
      }
    }
  }

  lemma ClosedConcat(a: seq<Token>, b: seq<Token>)
    ensures ClosedTags(a + b) <==> ClosedTags(a) && ClosedTags(b)
  {
    OpensConcat(a, b);
  }

  lemma TextIsClosed(ts: seq<Token>)
    requires OnlyText(ts)
    ensures ClosedTags(ts)
  {
  }

  lemma ClosedWrap(k: Kind, attrs: seq<Attr>, inner: seq<Token>)
    ensures ClosedTags(Wrap(k, attrs, inner)) <==> !k.Native? && ClosedTags(inner)
  {
    ClosedConcat([Open(k, attrs)], inner);
    ClosedConcat([Open(k, attrs)] + inner, [Close(k)]);
    assert k.Native? ==> [Open(k, attrs)][0].kind == Native;
  }

  // ---- The string that is sent ---------------------------------------------

  function Digits(n: nat): string {
    if n < 10 then [('0' as int + n) as char] else Digits(n / 10) + Digits(n % 10)
  }

  function Decimal(n: int): string {
    if n < 0 then "-" + Digits(-n) else Digits(n)
  }

  function KindName(k: Kind): string {
    match k
    case P => "p"
    case H(level) => "h" + Decimal(level)
    case Pre => "pre"
    case Ol => "ol"
    case Ul => "ul"
    case Li => "li"
    case Blockquote => "blockquote"
    case Footer => "footer"
    case Table => "table"
    case Caption => "caption"
    case Tr => "tr"
    case Td => "td"
    case Th => "th"
    case B => "b"
    case I => "i"
    case U => "u"
    case S => "s"
    case Code => "code"
    case A => "a"
    case Native => "function Object() { [native code] }"
  }

  function AttrLabel(n: AttrName): string {
    match n
    case Href => " href=\""
    case Start => " start=\""
    case Colspan => " colspan=\""
    case Rowspan => " rowspan=\""
    case Align => " align=\""
    case Valign => " valign=\""
  }

  function WriteAttrs(attrs: seq<Attr>): string {
    if attrs == [] then []
    else (match attrs[0]
      case Valued(name, value) => AttrLabel(name) + EscapeHtmlAttribute(value) + "\""
      case Bordered => " bordered"
      case Compact => " compact") + WriteAttrs(attrs[1..])
  }

  // What stands between the angle brackets of a markup token.
  function Body(t: Token): string
    requires !t.Ch?
  {
    match t
    case Open(k, attrs) => KindName(k) + WriteAttrs(attrs)
    case Close(k) => "/" + KindName(k)
    case Br => "br"
    case Hr => "hr"
  }

  function Serialize(ts: seq<Token>): string {
    if ts == [] then []
    else (if ts[0].Ch? then EscapeHtml([ts[0].c]) else "<" + Body(ts[0]) + ">") + Serialize(ts[1..])
  }

  datatype Piece = Markup(body: string) | Character(c: char)

  function Pieces(ts: seq<Token>): seq<Piece> {
    if ts == [] then []
    else [if ts[0].Ch? then Character(ts[0].c) else Markup(Body(ts[0]))] + Pieces(ts[1..])
  }

  function IndexOf(s: string, c: char): (n: nat)
    ensures n <= |s| && c !in s[..n] && (n < |s| ==> s[n] == c)
  {
    if s == [] || s[0] == c then 0 else
      var n := IndexOf(s[1..], c);
      assert s[..n + 1] == [s[0]] + s[1..][..n];
      n + 1
  }

  // How a reader splits the string: tags at the angle brackets, entities decoded.
  function Lex(s: string): seq<Piece> {
    if s == [] then []
    else if s[0] == '<' then
      var end := IndexOf(s, '>');
      [Markup(if end < |s| then s[1..end] else s[1..])] + (if end < |s| then Lex(s[end + 1..]) else [])
    else if "&amp;" <= s then [Character('&')] + Lex(s[5..])
    else if "&lt;" <= s then [Character('<')] + Lex(s[4..])
    else if "&gt;" <= s then [Character('>')] + Lex(s[4..])
    else if "&#39;" <= s then [Character('\'')] + Lex(s[5..])
    else [Character(s[0])] + Lex(s[1..])
  }

  predicate NoAngle(s: string) {
    forall i | 0 <= i < |s| :: s[i] != '<' && s[i] != '>'
  }

  lemma NoAngleConcat(a: string, b: string)
    requires NoAngle(a) && NoAngle(b)
    ensures NoAngle(a + b)
  {
  }

  lemma {:induction false} DigitsHaveNoAngle(n: nat)
    ensures NoAngle(Digits(n))
  {
    if n >= 10 {
      DigitsHaveNoAngle(n / 10);
      DigitsHaveNoAngle(n % 10);
      NoAngleConcat(Digits(n / 10), Digits(n % 10));
    }
  }

  lemma DecimalHasNoAngle(n: int)
    ensures NoAngle(Decimal(n))
  {
    DigitsHaveNoAngle(if n < 0 then -n else n);
    if n < 0 {
      NoAngleConcat("-", Digits(-n));
    }
  }

  lemma KindNameHasNoAngle(k: Kind)
    ensures NoAngle(KindName(k))
  {
    hide Decimal;
    if k.H? {
      DecimalHasNoAngle(k.level);
      NoAngleConcat("h", Decimal(k.level));
    }
  }

  lemma AttrLabelHasNoAngle(n: AttrName)
    ensures NoAngle(AttrLabel(n))
  {
  }

  lemma {:induction false} AttrsHaveNoAngle(attrs: seq<Attr>)
    ensures NoAngle(WriteAttrs(attrs))
  {
    if attrs != [] {
      AttrsHaveNoAngle(attrs[1..]);
      match attrs[0]
      case Valued(name, value) =>
        var escaped := EscapeHtmlAttribute(value);
        EscapeLeavesNoMarkup(value);
        assert NoAngle(escaped);
        AttrLabelHasNoAngle(name);
        NoAngleConcat(AttrLabel(name), escaped);
        NoAngleConcat(AttrLabel(name) + escaped, "\"");
        NoAngleConcat(AttrLabel(name) + escaped + "\"", WriteAttrs(attrs[1..]));
      case Bordered => NoAngleConcat(" bordered", WriteAttrs(attrs[1..]));
      case Compact => NoAngleConcat(" compact", WriteAttrs(attrs[1..]));
    }
  }

  lemma BodyHasNoAngle(t: Token)
    requires !t.Ch?
    ensures NoAngle(Body(t))
  {
    if t.Open? || t.Close? {
      KindNameHasNoAngle(t.kind);
      if t.Open? {
        AttrsHaveNoAngle(t.attrs);
        NoAngleConcat(KindName(t.kind), WriteAttrs(t.attrs));
      } else {
        NoAngleConcat("/", KindName(t.kind));
      }
    }
  }

  lemma LexEntity(c: char, rest: string)
    ensures Lex(Entity(c) + rest) == [Character(c)] + Lex(rest)
  {
    var s := Entity(c) + rest;
    if c == '&' { assert s[5..] == rest; }
    else if c == '<' { assert s[1] == 'l'; assert s[4..] == rest; }
    else if c == '>' { assert s[1] == 'g'; assert s[4..] == rest; }
    else if c == '\'' { assert s[1] == '#' && "&#39;" <= s; assert s[5..] == rest; }
    else { assert s[0] != '&' && s[1..] == rest; }
  }

  lemma {:induction false} IndexOfEnd(body: string, rest: string)
    requires NoAngle(body)
    ensures IndexOf(body + ">" + rest, '>') == |body|
  {
    var s := body + ">" + rest;
    if body != [] {
      assert s[1..] == body[1..] + ">" + rest;
      IndexOfEnd(body[1..], rest);
    }
  }

  lemma LexTag(body: string, rest: string)
    requires NoAngle(body)
    ensures Lex("<" + body + ">" + rest) == [Markup(body)] + Lex(rest)
  {
    var s := "<" + body + ">" + rest;
    var tail := body + ">" + rest;
    assert s[1..] == tail;
    IndexOfEnd(body, rest);
    assert IndexOf(s, '>') == |body| + 1;
    assert s[1..|body| + 1] == body;
    assert s[|body| + 2..] == rest;
  }

  /**
   * No forged markup: whatever characters and attribute values the tokens
   * carry, the string splits at its angle brackets into exactly the tags the
   * renderer opened and closed and the characters it meant to show.
   */
  lemma {:induction false} SerializedMarkupIsExact(ts: seq<Token>)
    ensures Lex(Serialize(ts)) == Pieces(ts)
  {
    if ts != [] {
      var rest := Serialize(ts[1..]);
      SerializedMarkupIsExact(ts[1..]);
      if ts[0].Ch? {
        EscapeOneCharacter(ts[0].c);
        LexEntity(ts[0].c, rest);
      } else {
        BodyHasNoAngle(ts[0]);
        LexTag(Body(ts[0]), rest);
      }
    }
  }

  lemma {:induction false} SerializeConcat(a: seq<Token>, b: seq<Token>)
    ensures Serialize(a + b) == Serialize(a) + Serialize(b)
  {
    if a == [] {
      assert a + b == b;
    } else {
      assert (a + b)[1..] == a[1..] + b;
      SerializeConcat(a[1..], b);
    }
  }

  // Plain text is written as the escaped text.
  lemma {:induction false} SerializeText(text: string)
    ensures Serialize(TextTokens(text)) == EscapeHtml(text)
  {
    if text != [] {
      assert text == [text[0]] + text[1..];
      EscapeConcat([text[0]], text[1..]);
      SerializeText(text[1..]);
      assert TextTokens(text)[1..] == TextTokens(text[1..]);
    }
  }
}
