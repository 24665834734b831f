/**
 * The two escaping functions every renderer goes through, as the chained
 * replacements of the source, and the facts the renderers rely on: escaping
 * works one character at a time, leaves no character that could open or close
 * markup, and loses nothing.
 */
module HtmlEscape {
  const APOSTROPHE := '\''
  const QUOTE := '\"'

  // Replace every occurrence of `c`, like a global regular-expression replace.
  function ReplaceAll(s: string, c: char, entity: string): string {
    if s == [] then [] else (if s[0] == c then entity else [s[0]]) + ReplaceAll(s[1..], c, entity)
  }

  function EscapeHtml(text: string): string {
    ReplaceAll(ReplaceAll(ReplaceAll(ReplaceAll(text, '&', "&amp;"), '<', "&lt;"), '>', "&gt;"), APOSTROPHE, "&#39;")
  }

  function EscapeHtmlAttribute(text: string): string {
    ReplaceAll(EscapeHtml(text), QUOTE, "&quot;")
  }

  // What one character of element content becomes.
  function Entity(c: char): string {
    if c == '&' then "&amp;"
    else if c == '<' then "&lt;"
    else if c == '>' then "&gt;"
    else if c == APOSTROPHE then "&#39;"
    else [c]
  }

  // What one character of an attribute value becomes.
  function AttributeEntity(c: char): string {
    if c == QUOTE then "&quot;" else Entity(c)
  }

  function MapEntities(text: string): string {
    if text == [] then [] else Entity(text[0]) + MapEntities(text[1..])
  }

  function MapAttributeEntities(text: string): string {
    if text == [] then [] else AttributeEntity(text[0]) + MapAttributeEntities(text[1..])
  }

  // The reader's side: the characters an escaped text stands for.
  function Unescape(s: string): string {
    if s == [] then []
    else if "&amp;" <= s then ['&'] + Unescape(s[5..])
    else if "&lt;" <= s then ['<'] + Unescape(s[4..])
    else if "&gt;" <= s then ['>'] + Unescape(s[4..])
    else if "&#39;" <= s then [APOSTROPHE] + Unescape(s[5..])
    else if "&quot;" <= s then [QUOTE] + Unescape(s[6..])
    else [s[0]] + Unescape(s[1..])
  }

  lemma {:induction false} ReplaceAllConcat(a: string, b: string, c: char, entity: string)
    ensures ReplaceAll(a + b, c, entity) == ReplaceAll(a, c, entity) + ReplaceAll(b, c, entity)
  {
    if a == [] {
      assert a + b == b;
    } else {
      assert (a + b)[1..] == a[1..] + b;
      ReplaceAllConcat(a[1..], b, c, entity);
    }
  }

  lemma ReplaceInOne(x: char, c: char, entity: string)
    ensures ReplaceAll([x], c, entity) == if x == c then entity else [x]
  {
  }

  lemma EscapeOneCharacter(c: char)
    ensures EscapeHtml([c]) == Entity(c)
    ensures EscapeHtmlAttribute([c]) == AttributeEntity(c)
  {
    ReplaceInOne(c, '&', "&amp;");
    ReplaceInOne(c, '<', "&lt;");
    ReplaceInOne(c, '>', "&gt;");
    EscapeQuote(c);
    if c == '&' || c == '<' || c == '>' {
      EntitiesAreStable(Entity(c));
    }
  }

  lemma EscapeQuote(c: char)
    ensures ReplaceAll([c], APOSTROPHE, "&#39;") == if c == APOSTROPHE then "&#39;" else [c]
    ensures ReplaceAll(ReplaceAll([c], APOSTROPHE, "&#39;"), QUOTE, "&quot;") ==
            if c == APOSTROPHE then "&#39;" else if c == QUOTE then "&quot;" else [c]
  {
    var apos := ReplaceAll([c], APOSTROPHE, "&#39;");
    ReplaceInOne(c, APOSTROPHE, "&#39;");
    if c == APOSTROPHE {
      EntitiesAreStable(apos);
    } else {
      ReplaceInOne(c, QUOTE, "&quot;");
    }
  }

  // An entity written by one replacement is left alone by the later ones.
  lemma EntitiesAreStable(s: string)
    requires '<' !in s && '>' !in s && APOSTROPHE !in s && QUOTE !in s
    ensures ReplaceAll(s, '<', "&lt;") == s && ReplaceAll(s, '>', "&gt;") == s
    ensures ReplaceAll(s, APOSTROPHE, "&#39;") == s && ReplaceAll(s, QUOTE, "&quot;") == s
  {
    ReplaceAllAbsent(s, '<', "&lt;");
    ReplaceAllAbsent(s, '>', "&gt;");
    ReplaceAllAbsent(s, APOSTROPHE, "&#39;");
    ReplaceAllAbsent(s, QUOTE, "&quot;");
  }

  lemma ReplaceAllAbsent(s: string, c: char, entity: string)
    requires c !in s
    ensures ReplaceAll(s, c, entity) == s
  {
  }

  // Escaping is a homomorphism: escaping pieces and joining them is escaping the whole.
  lemma EscapeConcat(a: string, b: string)
    ensures EscapeHtml(a + b) == EscapeHtml(a) + EscapeHtml(b)
    ensures EscapeHtmlAttribute(a + b) == EscapeHtmlAttribute(a) + EscapeHtmlAttribute(b)
  {
    var amp := (s: string) => ReplaceAll(s, '&', "&amp;");
    var lt := (s: string) => ReplaceAll(amp(s), '<', "&lt;");
    var gt := (s: string) => ReplaceAll(lt(s), '>', "&gt;");
    ReplaceAllConcat(a, b, '&', "&amp;");
    ReplaceAllConcat(amp(a), amp(b), '<', "&lt;");
    ReplaceAllConcat(lt(a), lt(b), '>', "&gt;");
    ReplaceAllConcat(gt(a), gt(b), APOSTROPHE, "&#39;");
    ReplaceAllConcat(EscapeHtml(a), EscapeHtml(b), QUOTE, "&quot;");
  }

  lemma {:induction false} EscapeIsPerCharacter(text: string)
    ensures EscapeHtml(text) == MapEntities(text)
    ensures EscapeHtmlAttribute(text) == MapAttributeEntities(text)
  {
    if text != [] {
      assert text == [text[0]] + text[1..];
      EscapeConcat([text[0]], text[1..]);
      EscapeOneCharacter(text[0]);
      EscapeIsPerCharacter(text[1..]);
    }
  }

  // No escaped text can open or close a tag, nor can an escaped attribute end its quotes.
  lemma {:induction false} EscapeLeavesNoMarkup(text: string)
    ensures '<' !in EscapeHtml(text) && '>' !in EscapeHtml(text) && APOSTROPHE !in EscapeHtml(text)
    ensures '<' !in EscapeHtmlAttribute(text) && '>' !in EscapeHtmlAttribute(text)
            && QUOTE !in EscapeHtmlAttribute(text)
  {
    EscapeIsPerCharacter(text);
    MappedHasNoMarkup(text);
  }

  lemma {:induction false} MappedHasNoMarkup(text: string)
    ensures forall x | x in MapEntities(text) :: x != '<' && x != '>' && x != APOSTROPHE
    ensures forall x | x in MapAttributeEntities(text) :: x != '<' && x != '>' && x != QUOTE
  {
    if text != [] {
      MappedHasNoMarkup(text[1..]);
    }
  }

  // Escaping loses nothing, in content and in attributes.
  lemma {:induction false} UnescapeRestores(text: string)
    ensures Unescape(EscapeHtml(text)) == text
    ensures Unescape(EscapeHtmlAttribute(text)) == text
  {
    EscapeIsPerCharacter(text);
    if text != [] {
      var rest := text[1..];
      UnescapeRestores(rest);
      EscapeIsPerCharacter(rest);
      UnescapeEntity(text[0], MapEntities(rest));
      UnescapeAttributeEntity(text[0], MapAttributeEntities(rest));
    }
  }

  lemma UnescapeEntity(c: char, rest: string)
    ensures Unescape(Entity(c) + rest) == [c] + Unescape(rest)
  {
    var s := Entity(c) + rest;
    if c == '&' { assert s[5..] == rest; }
    else if c == '<' { assert s[1] == 'l'; assert s[4..] == rest; }
    else if c == '>' { assert s[1] == 'g'; assert s[4..] == rest; }
    else if c == APOSTROPHE { assert s[1] == '#' && "&#39;" <= s; assert s[5..] == rest; }
    else { assert s[0] != '&' && s[1..] == rest; }
  }

  lemma UnescapeAttributeEntity(c: char, rest: string)
    ensures Unescape(AttributeEntity(c) + rest) == [c] + Unescape(rest)
  {
    if c == QUOTE {
      var s := AttributeEntity(c) + rest;
      assert s[6..] == rest;
      assert s[1] == 'q';
    } else {
      UnescapeEntity(c, rest);
    }
  }
}
