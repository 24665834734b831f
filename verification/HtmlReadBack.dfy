/**
 * The string that is sent, read back: whatever the tokens are, a reader that
 * knows the element names and attributes gets exactly these tokens.
 */
module HtmlReadBack {
  import opened HtmlEscape
  import opened HtmlTokens
  import opened HtmlLinks

  // ---- Numbers ----------------------------------------------------------------------------------

  function Digit(c: char): int {
    c as int - '0' as int
  }

  function ReadDigits(text: string): int {
    if text == [] then 0 else ReadDigits(text[..|text| - 1]) * 10 + Digit(text[|text| - 1])
  }

  function ReadNumber(text: string): int {
    if text != [] && text[0] == '-' then -ReadDigits(text[1..]) else ReadDigits(text)
  }

  lemma {:induction false} DigitsReadBack(n: nat)
    ensures ReadDigits(Digits(n)) == n
    ensures Digits(n) != [] && forall i | 0 <= i < |Digits(n)| :: '0' <= Digits(n)[i] <= '9'
  {
    if n < 10 {
      assert Digits(n)[..0] == [];
    } else {
      DigitsReadBack(n / 10);
      DigitsReadBack(n % 10);
      var all, last := Digits(n), Digits(n % 10);
      assert all == Digits(n / 10) + last && |last| == 1;
      assert all[..|all| - 1] == Digits(n / 10) && all[|all| - 1] == last[0];
      assert last[..0] == [];
    }
  }

  /** A number reads back, and is written with digits and a sign only. */
  lemma NumberReadsBack(n: int)
    ensures ReadNumber(Decimal(n)) == n
    ensures Decimal(n) != [] && forall i | 0 <= i < |Decimal(n)| :: Decimal(n)[i] == '-' || '0' <= Decimal(n)[i] <= '9'
  {
    hide Digits, ReadDigits;
    DigitsReadBack(if n < 0 then -n else n);
    if n < 0 {
      assert ("-" + Digits(-n))[1..] == Digits(-n);
    } else {
      assert Digits(n)[0] != '-';
    }
  }

  // ---- Attributes -------------------------------------------------------------------------------

  // An attribute whose value ends at the next quotation mark, and what follows it.
  function ReadValue(s: string, from: nat): (string, string)
    requires from <= |s|
  {
    var end := IndexOf(s[from..], '\"');
    (Unescape(s[from..][..end]), if end < |s[from..]| then s[from..][end + 1..] else [])
  }

  // Which attribute with a value begins here, and the length of what stands before the value.
  function LabelAt(s: string): Option<(AttrName, nat)> {
    if " href=\"" <= s then Some((Href, 7))
    else if " start=\"" <= s then Some((Start, 8))
    else if " colspan=\"" <= s then Some((Colspan, 10))
    else if " rowspan=\"" <= s then Some((Rowspan, 10))
    else if " align=\"" <= s then Some((Align, 8))
    else if " valign=\"" <= s then Some((Valign, 9))
    else None
  }

  function ReadAttr(s: string): Option<(Attr, string)> {
    if " bordered" <= s then Some((Bordered, s[9..]))
    else if " compact" <= s then Some((Compact, s[8..]))
    else if LabelAt(s).Some? && LabelAt(s).value.1 <= |s| then
      var (name, length) := LabelAt(s).value;
      var (value, rest) := ReadValue(s, length);
      Some((Valued(name, value), rest))
    else None
  }

  function ReadAttrs(s: string): seq<Attr>
    decreases |s|
  {
    var first := ReadAttr(s);
    if first.None? || |first.value.1| >= |s| then [] else [first.value.0] + ReadAttrs(first.value.1)
  }

  lemma ValueReadsBack(prefix: string, value: string, rest: string)
    ensures var s := prefix + EscapeHtmlAttribute(value) + "\"" + rest;
            ReadValue(s, |prefix|) == (value, rest)
  {
    var escaped := EscapeHtmlAttribute(value);
    var s := prefix + escaped + "\"" + rest;
    var tail := escaped + "\"" + rest;
    assert s[|prefix|..] == tail;
    EscapeLeavesNoMarkup(value);
    UnescapeRestores(value);
    FirstQuote(escaped, rest);
    assert tail[..|escaped|] == escaped && tail[|escaped| + 1..] == rest;
  }

  lemma {:induction false} FirstQuote(a: string, rest: string)
    requires '\"' !in a
    ensures IndexOf(a + "\"" + rest, '\"') == |a|
  {
    if a != [] {
      assert (a + "\"" + rest)[1..] == a[1..] + "\"" + rest;
      FirstQuote(a[1..], rest);
    }
  }

  // One attribute as it is written.
  function WriteAttr(a: Attr): string {
    match a
    case Valued(name, value) => AttrLabel(name) + EscapeHtmlAttribute(value) + "\""
    case Bordered => " bordered"
    case Compact => " compact"
  }

  lemma LabelIsRead(name: AttrName, rest: string)
    ensures LabelAt(AttrLabel(name) + rest) == Some((name, |AttrLabel(name)|))
    ensures !(" bordered" <= AttrLabel(name) + rest) && !(" compact" <= AttrLabel(name) + rest)
  {
    var lead := AttrLabel(name);
    var s := lead + rest;
    assert lead <= s && s[1] == lead[1] && s[2] == lead[2];
    assert " bordered"[1] == 'b' && " compact"[1] == 'c' && " compact"[3] == 'm' && " colspan=\""[3] == 'l';
    assert name.Colspan? ==> s[3] == 'l';
  }

  lemma AttrReadsBack(a: Attr, rest: string)
    ensures ReadAttr(WriteAttr(a) + rest) == Some((a, rest))
  {
    hide ReadValue, LabelAt, AttrLabel, EscapeHtmlAttribute;
    var s := WriteAttr(a) + rest;
    match a
    case Valued(name, value) =>
      var behind := EscapeHtmlAttribute(value) + "\"" + rest;
      assert s == AttrLabel(name) + EscapeHtmlAttribute(value) + "\"" + rest == AttrLabel(name) + behind;
      LabelIsRead(name, behind);
      ValueReadsBack(AttrLabel(name), value, rest);
    case Bordered => assert s[9..] == rest;
    case Compact => assert s[1] == 'c' && s[8..] == rest;
  }

  lemma {:induction false} AttrsReadBack(attrs: seq<Attr>)
    ensures ReadAttrs(WriteAttrs(attrs)) == attrs
  {
    hide ReadAttr;
    if attrs == [] {
      NoAttr();
    } else {
      var rest := WriteAttrs(attrs[1..]);
      assert WriteAttrs(attrs) == WriteAttr(attrs[0]) + rest;
      AttrReadsBack(attrs[0], rest);
      AttrsReadBack(attrs[1..]);
      assert WriteAttr(attrs[0]) != [];
    }
  }

  lemma NoAttr()
    ensures ReadAttr("").None?
  {
  }

  // ---- Tags -------------------------------------------------------------------------------------

  const CONSTRUCTOR_SOURCE := "function Object() { [native code] }"

  function KindNamed(name: string): Kind {
    if name == "p" then P
    else if name == "pre" then Kind.Pre
    else if name == "ol" then Kind.Ol
    else if name == "ul" then Kind.Ul
    else if name == "li" then Kind.Li
    else if name == "blockquote" then Kind.Blockquote
    else if name == "footer" then Kind.Footer
    else if name == "table" then Kind.Table
    else if name == "caption" then Kind.Caption
    else if name == "tr" then Kind.Tr
    else if name == "td" then Kind.Td
    else if name == "th" then Kind.Th
    else if name == "b" then B
    else if name == "i" then I
    else if name == "u" then U
    else if name == "s" then S
    else if name == "code" then Code
    else if name == "a" then A
    else if name == CONSTRUCTOR_SOURCE then Native
    else H(if name == [] then 0 else ReadNumber(name[1..]))
  }

  lemma KindReadsBack(k: Kind)
    ensures KindNamed(KindName(k)) == k && KindName(k) != []
  {
    hide Decimal, ReadNumber;
    if k.H? {
      NumberReadsBack(k.level);
      assert ("h" + Decimal(k.level))[1..] == Decimal(k.level) && ("h" + Decimal(k.level))[0] == 'h';
    }
  }

  // The name ends at the first blank; the one name with blanks in it is known.
  function NameLength(body: string): (n: nat)
    ensures n <= |body|
  {
    if CONSTRUCTOR_SOURCE <= body then |CONSTRUCTOR_SOURCE| else IndexOf(body, ' ')
  }

  function ReadTag(body: string): Token {
    if body == "br" then Br
    else if body == "hr" then Hr
    else if body != [] && body[0] == '/' then Close(KindNamed(body[1..]))
    else Open(KindNamed(body[..NameLength(body)]), ReadAttrs(body[NameLength(body)..]))
  }

  predicate NoBlank(s: string) {
    forall i | 0 <= i < |s| :: s[i] != ' '
  }

  lemma KindNameHasNoBlank(k: Kind)
    requires !k.Native?
    ensures NoBlank(KindName(k))
  {
    hide Decimal;
    if k.H? {
      NumberReadsBack(k.level);
    }
  }

  lemma AttrsStartBlank(attrs: seq<Attr>)
    ensures attrs != [] ==> WriteAttrs(attrs) != [] && WriteAttrs(attrs)[0] == ' '
  {
  }

  lemma {:induction false} FirstBlank(a: string, rest: string)
    requires NoBlank(a) && (rest != [] ==> rest[0] == ' ')
    ensures IndexOf(a + rest, ' ') == |a|
  {
    if a == [] {
      assert a + rest == rest;
    } else {
      assert (a + rest)[1..] == a[1..] + rest;
      FirstBlank(a[1..], rest);
    }
  }

  lemma NameIsRead(k: Kind, attrs: seq<Attr>)
    ensures NameLength(KindName(k) + WriteAttrs(attrs)) == |KindName(k)|
  {
    hide WriteAttrs, Decimal;
    var name, rest := KindName(k), WriteAttrs(attrs);
    AttrsStartBlank(attrs);
    assert attrs == [] ==> rest == [] by { NothingWritten(); }
    if !k.Native? {
      KindNameHasNoBlank(k);
      FirstBlank(name, rest);
      NotTheConstructor(k, rest);
    }
  }

  lemma NothingWritten()
    ensures WriteAttrs([]) == []
  {
  }

  // Only <footer> begins like it, and goes on differently.
  lemma NotTheConstructor(k: Kind, rest: string)
    requires !k.Native?
    ensures !(CONSTRUCTOR_SOURCE <= KindName(k) + rest)
  {
    hide Decimal;
    var s := KindName(k) + rest;
    assert CONSTRUCTOR_SOURCE[0] == 'f' && CONSTRUCTOR_SOURCE[1] == 'u';
    assert KindName(k) != [] by { KindReadsBack(k); }
    assert s[0] == KindName(k)[0];
    if k.Footer? {
      assert s[1] == 'o';
    } else {
      assert KindName(k)[0] != 'f';
    }
  }

  /** A tag reads back: which element it opens or closes, and its attributes in order. */
  lemma TagReadsBack(t: Token)
    requires !t.Ch?
    ensures ReadTag(Body(t)) == t
  {
    hide KindName, KindNamed, WriteAttrs, ReadAttrs, NameLength;
    match t
    case Open(k, attrs) =>
      var body := Body(t);
      KindReadsBack(k);
      NameIsRead(k, attrs);
      AttrsReadBack(attrs);
      NotABreak(k, attrs);
      assert body[..|KindName(k)|] == KindName(k) && body[|KindName(k)|..] == WriteAttrs(attrs);
    case Close(k) =>
      KindReadsBack(k);
      assert ("/" + KindName(k))[0] == '/' && ("/" + KindName(k))[1..] == KindName(k);
    case Br =>
    case Hr =>
  }

  lemma NotABreak(k: Kind, attrs: seq<Attr>)
    ensures var body := KindName(k) + WriteAttrs(attrs);
            body != "br" && body != "hr" && body != [] && body[0] != '/'
  {
    hide WriteAttrs, Decimal;
    var name, rest := KindName(k), WriteAttrs(attrs);
    AttrsStartBlank(attrs);
    assert attrs == [] ==> rest == [] by { NothingWritten(); }
    KindReadsBack(k);
    assert (name + rest)[0] == name[0];
    if k.H? {
      NumberReadsBack(k.level);
      assert (name + rest)[1] == name[1] == Decimal(k.level)[0] != 'r';
    } else if |name| == 1 {
      assert rest != [] ==> (name + rest)[1] == ' ';
    } else {
      assert (name + rest)[1] == name[1];
    }
  }

  // ---- The whole string -------------------------------------------------------------------------

  function ReadPieces(pieces: seq<Piece>): seq<Token> {
    if pieces == [] then []
    else [if pieces[0].Character? then Ch(pieces[0].c) else ReadTag(pieces[0].body)] + ReadPieces(pieces[1..])
  }

  /** Whatever is rendered: the string that is sent reads back as exactly the rendered tokens. */
  lemma {:induction false} StringReadsBack(ts: seq<Token>)
    ensures ReadPieces(Lex(Serialize(ts))) == ts
  {
    SerializedMarkupIsExact(ts);
    PiecesReadBack(ts);
  }

  lemma {:induction false} PiecesReadBack(ts: seq<Token>)
    ensures ReadPieces(Pieces(ts)) == ts
  {
    hide ReadTag, Body;
    if ts != [] {
      PiecesReadBack(ts[1..]);
      assert Pieces(ts)[1..] == Pieces(ts[1..]);
      if !ts[0].Ch? {
        TagReadsBack(ts[0]);
      }
    }
  }
}
