/**
 * Which stretches of a text are taken for links: the matches of the pattern are
 * the URLs of the text, each from its scheme to the first character that cannot
 * be in one, none inside another.
 */
module HtmlBareLinks {
  import opened HtmlTokens
  import opened HtmlLinks

  // An ASCII letter in either case, or the character itself; the long s folds to an s.
  predicate SameLetter(c: char, letter: char) {
    c == letter || (97 <= letter as int <= 122 && c as int == letter as int - 32)
      || (letter == 's' && c as int == 0x17f)
  }

  predicate BeginsWith(s: string, word: string) {
    |word| <= |s| && forall i | 0 <= i < |word| :: SameLetter(s[i], word[i])
  }

  // Not white space, no angle bracket and no quotation mark of any kind.
  predicate MayBeInUrl(c: char) {
    !IsSpace(c) && c as int !in {0x22, 0x27, 0x3c, 0x3e, 0x60, 0xab, 0xbb, 0x2018, 0x2019, 0x201c, 0x201d}
  }

  const SCHEMES := ["http://", "https://", "mailto:"]

  // Exactly the first `n` characters may be in a URL.
  predicate UrlRun(s: string, n: nat) {
    n <= |s| && (forall i | 0 <= i < n :: MayBeInUrl(s[i])) && (n < |s| ==> !MayBeInUrl(s[n]))
  }

  // From `start` stands this scheme, and behind it up to `end` one character at least and all that follow it.
  predicate UrlWith(text: string, start: nat, end: nat, scheme: string) {
    && start <= |text| && BeginsWith(text[start..], scheme)
    && start + |scheme| < end && UrlRun(text[start + |scheme|..], end - start - |scheme|)
  }

  /** A URL with one of the schemes stands from `start` to `end`. */
  predicate IsUrl(text: string, start: nat, end: nat) {
    exists k | 0 <= k < 3 :: UrlWith(text, start, end, SCHEMES[k])
  }

  lemma SameCharacters(c: char)
    ensures MayBeInUrl(c) <==> IsLinkCharacter(c)
  {
    var marks := "<>\"'`\U{ab}\U{bb}\U{2018}\U{2019}\U{201c}\U{201d}";
    assert marks[0] as int == 0x3c && marks[1] as int == 0x3e && marks[2] as int == 0x22 && marks[3] as int == 0x27;
    assert marks[4] as int == 0x60 && marks[5] as int == 0xab && marks[6] as int == 0xbb && marks[7] as int == 0x2018;
    assert marks[8] as int == 0x2019 && marks[9] as int == 0x201c && marks[10] as int == 0x201d;
    CodeIs(c, marks);
  }

  lemma CodeIs(c: char, marks: string)
    ensures c in marks <==> exists i :: 0 <= i < |marks| && marks[i] as int == c as int
  {
    if i :| 0 <= i < |marks| && marks[i] as int == c as int {
      assert marks[i] == c;
    }
  }

  lemma SameWord(s: string, word: string)
    requires forall i | 0 <= i < |word| :: 'a' <= word[i] <= 'z' || word[i] == ':' || word[i] == '/'
    ensures BeginsWith(s, word) <==> StartsWithWord(s, word)
  {
    assert ':' as int == 58 && '/' as int == 47 && 'a' as int == 97 && 'z' as int == 122 && '\U{17f}' as int == 0x17f;
    if |word| <= |s| {
      forall i | 0 <= i < |word|
        ensures SameLetter(s[i], word[i]) <==>
                if 'a' <= word[i] <= 'z' then FoldsTo(s[i], word[i]) else s[i] == word[i]
      {
      }
    }
  }

  lemma SchemeIs(s: string)
    ensures SchemeLength(s) > 0 <==> exists k | 0 <= k < 3 :: BeginsWith(s, SCHEMES[k])
    ensures forall k | 0 <= k < 3 && BeginsWith(s, SCHEMES[k]) :: SchemeLength(s) == |SCHEMES[k]|
  {
    hide BeginsWith, StartsWithWord;
    SameWord(s, "http://");
    SameWord(s, "https://");
    SameWord(s, "mailto:");
    NotBoth(s);
    assert SCHEMES[0] == "http://" && SCHEMES[1] == "https://" && SCHEMES[2] == "mailto:";
    if SchemeLength(s) > 0 {
      var k := if StartsWithWord(s, "https://") then 1 else if StartsWithWord(s, "http://") then 0 else 2;
      assert BeginsWith(s, SCHEMES[k]);
    }
  }

  // The schemes differ in their first or in their fifth letter.
  lemma NotBoth(s: string)
    ensures !(BeginsWith(s, "http://") && BeginsWith(s, "https://"))
    ensures !(BeginsWith(s, "http://") && BeginsWith(s, "mailto:"))
    ensures !(BeginsWith(s, "https://") && BeginsWith(s, "mailto:"))
  {
    var a, b, c := "http://", "https://", "mailto:";
    assert a[4] == ':' && b[4] == 's' && a[0] == b[0] == 'h' && c[0] == 'm';
    if BeginsWith(s, a) {
      assert SameLetter(s[4], a[4]) && SameLetter(s[0], a[0]);
    }
    if BeginsWith(s, b) {
      assert SameLetter(s[4], b[4]) && SameLetter(s[0], b[0]);
    }
    if BeginsWith(s, c) {
      assert SameLetter(s[0], c[0]);
    }
  }

  lemma RunStep(s: string, n: nat)
    requires s != []
    ensures UrlRun(s, n) <==> if MayBeInUrl(s[0]) then n > 0 && UrlRun(s[1..], n - 1) else n == 0
  {
    hide MayBeInUrl;
    if MayBeInUrl(s[0]) && n > 0 && UrlRun(s[1..], n - 1) {
      forall i | 0 <= i < n ensures MayBeInUrl(s[i]) { assert i > 0 ==> s[i] == s[1..][i - 1]; }
    }
    if UrlRun(s, n) && n > 0 {
      forall i | 0 <= i < n - 1 ensures MayBeInUrl(s[1..][i]) { assert s[1..][i] == s[i + 1]; }
    }
  }

  lemma {:induction false} RunIs(s: string, n: nat)
    ensures n == LinkRun(s) <==> UrlRun(s, n)
  {
    hide IsLinkCharacter, MayBeInUrl;
    if s == [] {
      assert UrlRun(s, n) <==> n == 0;
    } else {
      hide UrlRun;
      SameCharacters(s[0]);
      RunStep(s, n);
      if n > 0 {
        RunIs(s[1..], n - 1);
      }
    }
  }

  lemma UrlIsMatch(text: string, start: nat, end: nat, k: nat)
    requires k < 3 && UrlWith(text, start, end, SCHEMES[k])
    ensures start < end <= |text| && MatchLength(text[start..]) == end - start
  {
    hide BeginsWith, LinkRun, SchemeLength, MayBeInUrl;
    var s, n := text[start..], |SCHEMES[k]|;
    SchemeIs(s);
    assert SchemeLength(s) == n && s[n..] == text[start + n..];
    RunIs(s[n..], end - start - n);
  }

  lemma MatchIsUrl(text: string, start: nat)
    requires start <= |text| && MatchLength(text[start..]) > 0
    ensures IsUrl(text, start, start + MatchLength(text[start..]))
  {
    hide BeginsWith, LinkRun, SchemeLength, UrlRun;
    var s := text[start..];
    SchemeIs(s);
    var k :| 0 <= k < 3 && BeginsWith(s, SCHEMES[k]);
    var n := |SCHEMES[k]|;
    assert SchemeLength(s) == n && s[n..] == text[start + n..];
    RunIs(s[n..], LinkRun(s[n..]));
    assert UrlWith(text, start, start + MatchLength(s), SCHEMES[k]);
  }

  lemma UrlHasLength(text: string, start: nat, end: nat)
    requires IsUrl(text, start, end)
    ensures start < end <= |text| && MatchLength(text[start..]) == end - start
  {
    hide UrlWith, MatchLength;
    var k :| 0 <= k < 3 && UrlWith(text, start, end, SCHEMES[k]);
    UrlIsMatch(text, start, end, k);
  }

  /** Each match is a URL, whole from its scheme on. */
  lemma {:induction false} MatchesAreUrls(text: string, from: nat)
    requires from <= |text|
    ensures forall s | s in Matches(text, from) :: from <= s.start && IsUrl(text, s.start, s.end)
    decreases |text| - from
  {
    hide MatchLength, IsUrl;
    if from < |text| {
      var n := MatchLength(text[from..]);
      if n == 0 {
        MatchesAreUrls(text, from + 1);
      } else {
        MatchIsUrl(text, from);
        MatchesAreUrls(text, from + n);
      }
    }
  }

  /** Each URL begins inside a match. */
  lemma {:induction false} UrlsAreMatched(text: string, from: nat, start: nat, end: nat) returns (s: Span)
    requires from <= start && IsUrl(text, start, end)
    ensures from <= |text| && s in Matches(text, from) && s.start <= start < s.end
    decreases |text| - from
  {
    hide MatchLength, IsUrl;
    UrlHasLength(text, start, end);
    var n := MatchLength(text[from..]);
    if n == 0 {
      s := UrlsAreMatched(text, from + 1, start, end);
    } else if start < from + n {
      s := Span(from, from + n);
      assert Matches(text, from)[0] == s;
    } else {
      s := UrlsAreMatched(text, from + n, start, end);
    }
  }

  // ---- What belongs to the prose -----------------------------------------------------------------

  // How often a character occurs.
  function Times(s: string, c: char): nat {
    multiset(s)[c]
  }

  lemma {:induction false} CountIsTimes(s: string, c: char)
    ensures Count(s, c) == Times(s, c)
  {
    if s != [] {
      CountIsTimes(s[..|s| - 1], c);
      assert s == s[..|s| - 1] + [s[|s| - 1]];
    }
  }

  // . , ; : ! ? and their full-width forms
  predicate IsPunctuation(c: char) {
    c as int in {0x2e, 0x2c, 0x3b, 0x3a, 0x21, 0x3f, 0x3002, 0x3001, 0xff0c, 0xff01, 0xff1f}
  }

  lemma PunctuationIs(c: char)
    ensures IsPunctuation(c) <==> IsTrailingPunctuation(c)
  {
    var marks := ".,;:!?\U{3002}\U{3001}\U{ff0c}\U{ff01}\U{ff1f}";
    assert marks[0] as int == 0x2e && marks[1] as int == 0x2c && marks[2] as int == 0x3b && marks[3] as int == 0x3a;
    assert marks[4] as int == 0x21 && marks[5] as int == 0x3f && marks[6] as int == 0x3002 && marks[7] as int == 0x3001;
    assert marks[8] as int == 0xff0c && marks[9] as int == 0xff01 && marks[10] as int == 0xff1f;
    CodeIs(c, marks);
  }

  // The last character ends a sentence, or closes a bracket that was not opened.
  predicate EndsProse(s: string) {
    s != [] &&
    var last := s[|s| - 1];
    || IsPunctuation(last)
    || (last == ')' && Times(s, ')') > Times(s, '('))
    || (last == ']' && Times(s, ']') > Times(s, '['))
    || (last == '}' && Times(s, '}') > Times(s, '{'))
  }

  /**
   * Of a match of at most 2048 characters, the longest beginning that does not
   * end in prose is the candidate; of a longer one, or of prose alone, none is.
   */
  lemma CandidateExactlyWhen(raw: string, end: nat)
    requires end <= |raw|
    ensures LinkCandidate(raw) == Some(raw[..end]) <==>
            && 0 < end && |raw| <= 2048 && !EndsProse(raw[..end])
            && forall e | end < e <= |raw| :: EndsProse(raw[..e])
  {
    hide IsTrailingPunctuation, IsPunctuation, Times, Count;
    forall s: string ensures EndsProse(s) <==> EndsInProse(s) { SameProse(s); }
    var r := TrimProse(raw);
    if |r| < end {
      assert EndsInProse(raw[..end]);
    } else if end < |r| {
      assert raw[..|r|] == r;
    }
  }

  lemma SameProse(s: string)
    ensures EndsProse(s) <==> EndsInProse(s)
  {
    hide IsTrailingPunctuation, IsPunctuation, Times, Count;
    if s != [] {
      PunctuationIs(s[|s| - 1]);
      forall c ensures Count(s, c) == Times(s, c) { CountIsTimes(s, c); }
    }
  }
}
