/**
 * The guard against alias names that imitate reserved mailboxes or brands:
 * reading the digit 1 as i or l, and matching names in one pass.
 */
module Impersonation {
  // ---- Readings of a name written with digits --------------------------------------------

  function Unleet(c: char): char {
    match c
    case '0' => 'o'
    case '3' => 'e'
    case '4' => 'a'
    case '5' => 's'
    case '@' => 'a'
    case _ => c
  }

  function Base(lower: string): (r: string)
    ensures |r| == |lower| && forall i | 0 <= i < |r| :: r[i] == Unleet(lower[i])
  {
    seq(|lower|, i requires 0 <= i < |lower| => Unleet(lower[i]))
  }

  const MAX_LEET_ONES_EXPANDED := 5

  function CountOnes(s: string): nat {
    if s == [] then 0 else (if s[0] == '1' then 1 else 0) + CountOnes(s[1..])
  }

  // Every 1 read as i or l, everything else as it stands.
  predicate IsReading(base: string, v: string) {
    |v| == |base| && forall i | 0 <= i < |base| ::
      if base[i] == '1' then v[i] == 'i' || v[i] == 'l' else v[i] == base[i]
  }

  // What a character of a name may be read as: a digit or sign as the letter it imitates, all else as itself.
  predicate ReadAs(c: char, d: char) {
    if c == '0' then d == 'o'
    else if c == '1' then d in {'i', 'l'}
    else if c == '3' then d == 'e'
    else if c in {'4', '@'} then d == 'a'
    else if c == '5' then d == 's'
    else d == c
  }

  predicate Deciphers(name: string, v: string) {
    |v| == |name| && forall i | 0 <= i < |name| :: ReadAs(name[i], v[i])
  }

  // The name spells the word, a letter by itself or by what imitates it.
  predicate Spells(name: string, word: string) {
    |word| == |name| && forall i | 0 <= i < |name| ::
      name[i] == word[i] || (name[i], word[i]) in {('0', 'o'), ('1', 'i'), ('1', 'l'), ('3', 'e'), ('4', 'a'),
                                                   ('@', 'a'), ('5', 's')}
  }

  /** The readings of the base are exactly what the name deciphers to, words of letters what it spells. */
  lemma ReadingsDecipher(name: string, v: string)
    ensures IsReading(Base(name), v) <==> Deciphers(name, v)
    ensures (forall c | c in v :: 'a' <= c <= 'z') ==> (Deciphers(name, v) <==> Spells(name, v))
  {
    if forall c | c in v :: 'a' <= c <= 'z' {
      assert forall i | 0 <= i < |v| :: v[i] in v;
    }
  }

  lemma {:induction false} OnesStayInPlace(name: string)
    ensures CountOnes(Base(name)) == CountOnes(name)
  {
    if name != [] {
      OnesStayInPlace(name[1..]);
      assert Base(name)[1..] == Base(name[1..]);
    }
  }

  function Pow2(n: nat): nat {
    if n == 0 then 1 else 2 * Pow2(n - 1)
  }

  // Bit `j` of the mask: `(mask >> j) & 1`.
  predicate Bit(mask: nat, j: nat) {
    if j == 0 then mask % 2 == 1 else Bit(mask / 2, j - 1)
  }

  // The reading in which the j-th 1 is an l exactly if bit j is set.
  function FromMask(base: string, mask: nat): (v: string)
    ensures IsReading(base, v)
  {
    if base == [] then []
    else if base[0] == '1' then [if mask % 2 == 1 then 'l' else 'i'] + FromMask(base[1..], mask / 2)
    else [base[0]] + FromMask(base[1..], mask)
  }

  function MaskOf(base: string, v: string): nat
    requires IsReading(base, v)
  {
    if base == [] then 0
    else if base[0] == '1' then (if v[0] == 'l' then 1 else 0) + 2 * MaskOf(base[1..], v[1..])
    else MaskOf(base[1..], v[1..])
  }

  // Masks and readings correspond one to one.
  lemma {:induction false} ReadingHasMask(base: string, v: string)
    requires IsReading(base, v)
    ensures MaskOf(base, v) < Pow2(CountOnes(base)) && FromMask(base, MaskOf(base, v)) == v
  {
    if base != [] {
      ReadingHasMask(base[1..], v[1..]);
      assert v == [v[0]] + v[1..];
      if base[0] == '1' {
        var mask, rest := MaskOf(base, v), MaskOf(base[1..], v[1..]);
        assert mask % 2 == (if v[0] == 'l' then 1 else 0) && mask / 2 == rest;
        assert FromMask(base, mask) == [v[0]] + FromMask(base[1..], rest);
      }
    }
  }

  lemma {:induction false} MaskIsRecovered(base: string, mask: nat)
    requires mask < Pow2(CountOnes(base))
    ensures MaskOf(base, FromMask(base, mask)) == mask
  {
    if base != [] {
      var v := FromMask(base, mask);
      if base[0] == '1' {
        assert v[1..] == FromMask(base[1..], mask / 2);
        MaskIsRecovered(base[1..], mask / 2);
      } else {
        assert v[1..] == FromMask(base[1..], mask);
        MaskIsRecovered(base[1..], mask);
      }
    }
  }

  lemma {:induction false} FromMaskAt(base: string, mask: nat, i: nat)
    requires i < |base|
    ensures FromMask(base, mask)[i] ==
            if base[i] == '1' then (if Bit(mask, CountOnes(base[..i])) then 'l' else 'i') else base[i]
    decreases |base|
  {
    if i > 0 {
      assert base[..i][1..] == base[1..][..i - 1];
      FromMaskAt(base[1..], if base[0] == '1' then mask / 2 else mask, i - 1);
    }
  }

  lemma {:induction false} CountOnesConcat(a: string, b: string)
    ensures CountOnes(a + b) == CountOnes(a) + CountOnes(b)
  {
    if a == [] {
      assert a + b == b;
    } else {
      assert (a + b)[1..] == a[1..] + b;
      CountOnesConcat(a[1..], b);
    }
  }

  // The positions of the ones, in order.
  ghost predicate ArePositions(base: string, ones: seq<nat>) {
    && |ones| == CountOnes(base)
    && (forall j | 0 <= j < |ones| :: ones[j] < |base| && base[ones[j]] == '1' && CountOnes(base[..ones[j]]) == j)
    && (forall i | 0 <= i < |base| && base[i] == '1' ::
        CountOnes(base[..i]) < |ones| && ones[CountOnes(base[..i])] == i)
  }

  method FindOnes(base: string) returns (ones: seq<nat>)
    ensures ArePositions(base, ones)
  {
    ones := [];
    for i := 0 to |base|
      invariant |ones| == CountOnes(base[..i])
      invariant forall j | 0 <= j < |ones| :: ones[j] < i && base[ones[j]] == '1' && CountOnes(base[..ones[j]]) == j
      invariant forall k | 0 <= k < i && base[k] == '1' ::
                CountOnes(base[..k]) < |ones| && ones[CountOnes(base[..k])] == k
    {
      assert base[..i + 1] == base[..i] + [base[i]];
      CountOnesConcat(base[..i], [base[i]]);
      if base[i] == '1' {
        ones := ones + [i];
      }
    }
    assert base[..|base|] == base;
  }

  // The character at `i` once the first `j` ones are written.
  function PartlyWritten(base: string, mask: nat, j: nat, i: nat): char
    requires i < |base|
  {
    var rank := CountOnes(base[..i]);
    if base[i] == '1' && rank < j then (if Bit(mask, rank) then 'l' else 'i') else base[i]
  }

  // One variant: copy the base, then write each 1.
  method WriteVariant(base: string, ones: seq<nat>, mask: nat) returns (chars: string)
    requires ArePositions(base, ones)
    ensures chars == FromMask(base, mask)
  {
    chars := base;
    for j := 0 to |ones|
      invariant |chars| == |base|
      invariant forall i | 0 <= i < |base| :: chars[i] == PartlyWritten(base, mask, j, i)
    {
      chars := chars[ones[j] := if Bit(mask, j) then 'l' else 'i'];
    }
    forall i | 0 <= i < |base| ensures chars[i] == FromMask(base, mask)[i] {
      FromMaskAt(base, mask, i);
    }
  }

  function AllAs(base: string, c: char): (r: string)
    ensures |r| == |base| && forall i | 0 <= i < |r| :: r[i] == if base[i] == '1' then c else base[i]
  {
    seq(|base|, i requires 0 <= i < |base| => if base[i] == '1' then c else base[i])
  }

  predicate NoRepeats(s: seq<string>) {
    forall i, j | 0 <= i < j < |s| :: s[i] != s[j]
  }

  lemma {:induction false} OnlyReadingWithoutOnes(base: string, v: string)
    requires CountOnes(base) == 0
    ensures IsReading(base, v) <==> v == base
  {
    if base != [] && |v| == |base| {
      OnlyReadingWithoutOnes(base[1..], v[1..]);
      assert base == [base[0]] + base[1..] && v == [v[0]] + v[1..];
      assert IsReading(base, v) ==> IsReading(base[1..], v[1..]);
    }
  }

  // The reading in which every 1 is the letter `c`.
  predicate DeciphersWith(name: string, c: char, v: string) {
    Deciphers(name, v) && forall i | 0 <= i < |name| && name[i] == '1' :: v[i] == c
  }

  lemma AllAsDeciphers(name: string, c: char, v: string)
    requires c in {'i', 'l'}
    ensures v == AllAs(Base(name), c) <==> DeciphersWith(name, c, v)
  {
  }

  /**
   * Up to five ones, the variants are exactly what the name deciphers to, each
   * once, 2 to the number of ones of them; beyond that, with all i and all l.
   */
  method LeetVariants(lower: string) returns (results: seq<string>)
    ensures if CountOnes(lower) <= 5 then
              && |results| == Pow2(CountOnes(lower)) && NoRepeats(results)
              && forall v :: v in results <==> Deciphers(lower, v)
            else |results| == 2 && DeciphersWith(lower, 'i', results[0]) && DeciphersWith(lower, 'l', results[1])
  {
    var base := Base(lower);
    OnesStayInPlace(lower);
    forall v ensures IsReading(base, v) <==> Deciphers(lower, v) { ReadingsDecipher(lower, v); }
    AllAsDeciphers(lower, 'i', AllAs(base, 'i'));
    AllAsDeciphers(lower, 'l', AllAs(base, 'l'));
    var ones := FindOnes(base);
    if ones == [] {
      forall v ensures v in [base] <==> IsReading(base, v) { OnlyReadingWithoutOnes(base, v); }
      return [base];
    }
    if |ones| > MAX_LEET_ONES_EXPANDED {
      return [AllAs(base, 'i'), AllAs(base, 'l')];
    }
    results := [];
    var total := Pow2(|ones|);
    for mask := 0 to total
      invariant |results| == mask && forall m | 0 <= m < mask :: results[m] == FromMask(base, m)
    {
      var variant := WriteVariant(base, ones, mask);
      results := results + [variant];
    }
    VariantsAreReadings(base, results);
  }

  lemma VariantsAreReadings(base: string, results: seq<string>)
    requires |results| == Pow2(CountOnes(base)) && forall m | 0 <= m < |results| :: results[m] == FromMask(base, m)
    ensures NoRepeats(results) && forall v :: v in results <==> IsReading(base, v)
  {
    forall i, j | 0 <= i < j < |results| ensures results[i] != results[j] {
      MaskIsRecovered(base, i);
      MaskIsRecovered(base, j);
    }
    forall v ensures v in results <==> IsReading(base, v) {
      if IsReading(base, v) {
        ReadingHasMask(base, v);
        assert results[MaskOf(base, v)] == v;
      }
    }
  }

  // ---- Prefixes at a boundary ---------------------------------------------------------------

  predicate IsSeparator(c: char) {
    c == '.' || c == '_' || c == '-'
  }

  predicate IsDigit(c: char) {
    '0' <= c <= '9'
  }

  function Strip(s: string): string {
    if s == [] then [] else (if IsSeparator(s[0]) then [] else [s[0]]) + Strip(s[1..])
  }

  lemma {:induction false} StripConcat(a: string, b: string)
    ensures Strip(a + b) == Strip(a) + Strip(b)
  {
    if a == [] {
      assert a + b == b;
    } else {
      assert (a + b)[1..] == a[1..] + b;
      StripConcat(a[1..], b);
    }
  }

  // The first `n` characters spell the prefix, end in its last letter, and a separator, a digit or the end follows.
  predicate EndsPrefixAt(candidate: string, prefix: string, n: nat)
    requires n <= |candidate|
  {
    && Strip(candidate[..n]) == prefix
    && (n > 0 ==> !IsSeparator(candidate[n - 1]))
    && (n < |candidate| ==> IsSeparator(candidate[n]) || IsDigit(candidate[n]))
  }

  predicate HasPrefixAtBoundary(candidate: string, prefix: string) {
    exists n: nat | n <= |candidate| :: EndsPrefixAt(candidate, prefix, n)
  }

  // Up to different places, with a letter in between, different strings are spelled.
  lemma LongerSpellsMore(s: string, m: nat, n: nat)
    requires m < n <= |s| && !IsSeparator(s[n - 1])
    ensures |Strip(s[..m])| < |Strip(s[..n])| && Strip(s[..m]) <= Strip(s[..n])
  {
    assert s[..n] == s[..m] + s[m..n];
    StripConcat(s[..m], s[m..n]);
    assert s[m..n] == s[m..n - 1] + [s[n - 1]];
    StripConcat(s[m..n - 1], [s[n - 1]]);
    assert Strip([s[n - 1]]) == [s[n - 1]] + Strip([]);
  }

  lemma StripStep(s: string, i: nat)
    requires i < |s|
    ensures Strip(s[..i + 1]) == Strip(s[..i]) + if IsSeparator(s[i]) then [] else [s[i]]
  {
    assert s[..i + 1] == s[..i] + [s[i]];
    StripConcat(s[..i], [s[i]]);
    assert Strip([s[i]]) == (if IsSeparator(s[i]) then [] else [s[i]]) + Strip([]);
  }

  // Spelling a wrong letter rules the prefix out, however the name goes on.
  lemma WrongLetter(candidate: string, prefix: string, i: nat, k: nat)
    requires i < |candidate| && k < |prefix| && Strip(candidate[..i]) == prefix[..k]
    requires !IsSeparator(candidate[i]) && candidate[i] != prefix[k]
    ensures !HasPrefixAtBoundary(candidate, prefix)
  {
    StripStep(candidate, i);
    forall n: nat | n <= |candidate| ensures Strip(candidate[..n]) != prefix {
      if n <= i {
        assert candidate[..i] == candidate[..n] + candidate[n..i];
        StripConcat(candidate[..n], candidate[n..i]);
      } else {
        assert candidate[..n] == candidate[..i + 1] + candidate[i + 1..n];
        StripConcat(candidate[..i + 1], candidate[i + 1..n]);
        assert Strip(candidate[..n])[k] == candidate[i];
      }
    }
  }

  // The place where the prefix is spelled out is unique.
  lemma OnlyThere(candidate: string, prefix: string, i: nat)
    requires i <= |candidate| && Strip(candidate[..i]) == prefix && (i > 0 ==> !IsSeparator(candidate[i - 1]))
    ensures HasPrefixAtBoundary(candidate, prefix) <==> EndsPrefixAt(candidate, prefix, i)
  {
    forall n: nat | n <= |candidate| && EndsPrefixAt(candidate, prefix, n) ensures n == i {
      if n < i {
        LongerSpellsMore(candidate, n, i);
      } else if i < n {
        LongerSpellsMore(candidate, i, n);
      }
    }
  }

  lemma TooShort(candidate: string, prefix: string)
    requires |Strip(candidate)| < |prefix|
    ensures !HasPrefixAtBoundary(candidate, prefix)
  {
    forall n: nat | n <= |candidate| ensures Strip(candidate[..n]) != prefix {
      assert candidate == candidate[..n] + candidate[n..];
      StripConcat(candidate[..n], candidate[n..]);
    }
  }

  /** The one-pass matcher agrees with the definition. */
  method MatchesPrefixAtBoundary(candidate: string, prefix: string) returns (matches: bool)
    ensures matches <==> HasPrefixAtBoundary(candidate, prefix)
  {
    var prefixIdx := 0;
    for i := 0 to |candidate|
      invariant prefixIdx <= |prefix| && Strip(candidate[..i]) == prefix[..prefixIdx]
      invariant prefixIdx == |prefix| && i > 0 ==> !IsSeparator(candidate[i - 1])
    {
      var c := candidate[i];
      if prefixIdx == |prefix| {
        assert prefix[..prefixIdx] == prefix;
        OnlyThere(candidate, prefix, i);
        return IsSeparator(c) || IsDigit(c);
      }
      StripStep(candidate, i);
      if !IsSeparator(c) {
        if c != prefix[prefixIdx] {
          WrongLetter(candidate, prefix, i, prefixIdx);
          return false;
        }
        assert prefix[..prefixIdx + 1] == prefix[..prefixIdx] + [c];
        prefixIdx := prefixIdx + 1;
      }
    }
    assert candidate[..|candidate|] == candidate;
    if prefixIdx == |prefix| {
      assert prefix[..prefixIdx] == prefix;
      OnlyThere(candidate, prefix, |candidate|);
    } else {
      TooShort(candidate, prefix);
    }
    return prefixIdx == |prefix|;
  }

  // ---- The guard --------------------------------------------------------------------------------

  /** Reserved names, prefixes, long brands matched anywhere, short brands matched at boundaries. */
  datatype Blocklists = Blocklists(exact: set<string>, prefixes: seq<string>, longBrands: seq<string>,
                                   shortBrands: seq<string>)

  predicate Contains(s: string, part: string) {
    exists i | 0 <= i <= |s| :: part <= s[i..]
  }

  predicate IsBoundary(c: char) {
    IsSeparator(c) || IsDigit(c)
  }

  // The brand stands between boundaries, or the ends of the name.
  predicate StandsAlone(s: string, brand: string) {
    exists i: nat | i <= |s| ::
      && brand <= s[i..] && (i > 0 ==> IsBoundary(s[i - 1]))
      && (i + |brand| < |s| ==> IsBoundary(s[i + |brand|]))
  }

  predicate IsBlocked(lists: Blocklists, candidate: string) {
    var stripped := Strip(candidate);
    || stripped in lists.exact
    || (exists p | p in lists.prefixes :: HasPrefixAtBoundary(candidate, p))
    || (exists b | b in lists.longBrands :: Contains(stripped, b))
    || (exists b | b in lists.shortBrands ::
        StandsAlone(candidate, b) || (candidate != stripped && Contains(stripped, b)))
  }

  // The characters between which a word stands alone: . _ - and digits.
  predicate IsMark(c: char) {
    var code := c as int;
    code == 45 || code == 46 || code == 95 || 48 <= code <= 57
  }

  predicate EndsAtMark(s: string) {
    s == [] || IsMark(s[|s| - 1])
  }

  predicate StartsAtMark(s: string) {
    s == [] || IsMark(s[0])
  }

  // `letters` is the name without its dots, underscores and hyphens.
  predicate Unmarked(s: string, letters: string) {
    if s == [] then letters == []
    else if s[0] as int in {45, 46, 95} then Unmarked(s[1..], letters)
    else letters != [] && letters[0] == s[0] && Unmarked(s[1..], letters[1..])
  }

  lemma {:induction false} StripUnmarks(s: string, letters: string)
    ensures Unmarked(s, letters) <==> letters == Strip(s)
  {
    if s != [] {
      var c := s[0];
      assert '-' as int == 45 && '.' as int == 46 && '_' as int == 95;
      if c as int in {45, 46, 95} {
        StripUnmarks(s[1..], letters);
        assert [] + Strip(s[1..]) == Strip(s[1..]);
      } else if letters != [] {
        StripUnmarks(s[1..], letters[1..]);
        assert letters == [letters[0]] + letters[1..];
      }
    }
  }

  lemma MarksAreBoundaries(c: char)
    ensures IsMark(c) <==> IsBoundary(c)
    ensures IsSeparator(c) <==> c as int in {45, 46, 95}
  {
    assert '-' as int == 45 && '.' as int == 46 && '_' as int == 95 && '0' as int == 48 && '9' as int == 57;
  }

  // `part` is in `s`, with these ends around it.
  predicate Around(s: string, before: string, part: string, after: string) {
    s == before + part + after
  }

  lemma ContainsAround(s: string, part: string)
    ensures Contains(s, part) <==> exists before, after :: Around(s, before, part, after)
  {
    if Contains(s, part) {
      var i :| 0 <= i <= |s| && part <= s[i..];
      assert s == s[..i] + part + s[i + |part|..];
      assert Around(s, s[..i], part, s[i + |part|..]);
    }
    if before, after :| Around(s, before, part, after) {
      assert s[|before|..] == part + after;
    }
  }

  lemma AloneAt(s: string, part: string, i: nat)
    requires i <= |s| && part <= s[i..]
    requires (i > 0 ==> IsBoundary(s[i - 1])) && (i + |part| < |s| ==> IsBoundary(s[i + |part|]))
    ensures var before, after := s[..i], s[i + |part|..];
            Around(s, before, part, after) && EndsAtMark(before) && StartsAtMark(after)
  {
    hide IsMark, IsBoundary;
    var before, after := s[..i], s[i + |part|..];
    assert s == before + part + after;
    if before != [] {
      MarksAreBoundaries(s[i - 1]);
    }
    if after != [] {
      MarksAreBoundaries(s[i + |part|]);
    }
  }

  lemma AroundAlone(s: string, before: string, part: string, after: string)
    requires Around(s, before, part, after) && EndsAtMark(before) && StartsAtMark(after)
    ensures StandsAlone(s, part)
  {
    hide IsMark, IsBoundary;
    var i := |before|;
    assert s[i..] == part + after;
    if before != [] {
      assert s[i - 1] == before[i - 1];
      MarksAreBoundaries(s[i - 1]);
    }
    if after != [] {
      assert s[i + |part|] == after[0];
      MarksAreBoundaries(after[0]);
    }
  }

  lemma AloneAround(s: string, part: string)
    ensures StandsAlone(s, part) <==>
            exists before, after :: Around(s, before, part, after) && EndsAtMark(before) && StartsAtMark(after)
  {
    hide Around, EndsAtMark, StartsAtMark, IsBoundary;
    if StandsAlone(s, part) {
      var i: nat :| i <= |s| && part <= s[i..] && (i > 0 ==> IsBoundary(s[i - 1]))
                    && (i + |part| < |s| ==> IsBoundary(s[i + |part|]));
      AloneAt(s, part, i);
    }
    if before, after :| Around(s, before, part, after) && EndsAtMark(before) && StartsAtMark(after) {
      AroundAlone(s, before, part, after);
    }
  }

  lemma PrefixAt(s: string, prefix: string, n: nat)
    requires n <= |s| && EndsPrefixAt(s, prefix, n)
    ensures var before, after := s[..n], s[n..];
            && Around(s, before, [], after) && Unmarked(before, prefix) && StartsAtMark(after)
            && (before == [] || !(before[|before| - 1] as int in {45, 46, 95}))
  {
    hide IsMark, IsBoundary, Strip, Unmarked;
    StripUnmarks(s[..n], prefix);
    assert s == s[..n] + [] + s[n..];
    if n > 0 {
      MarksAreBoundaries(s[n - 1]);
      BoundaryIs(s[n - 1]);
    }
    if n < |s| {
      MarksAreBoundaries(s[n]);
      BoundaryIs(s[n]);
    }
  }

  lemma AroundPrefix(s: string, prefix: string, before: string, after: string)
    requires Around(s, before, [], after) && Unmarked(before, prefix) && StartsAtMark(after)
    requires before == [] || !(before[|before| - 1] as int in {45, 46, 95})
    ensures |before| <= |s| && EndsPrefixAt(s, prefix, |before|)
  {
    hide IsMark, IsBoundary, Strip, Unmarked;
    StripUnmarks(before, prefix);
    assert s[..|before|] == before;
    if before != [] {
      assert s[|before| - 1] == before[|before| - 1];
      MarksAreBoundaries(s[|before| - 1]);
      BoundaryIs(s[|before| - 1]);
    }
    if after != [] {
      assert s[|before|] == after[0];
      MarksAreBoundaries(after[0]);
      BoundaryIs(after[0]);
    }
  }

  lemma PrefixAround(s: string, prefix: string)
    ensures HasPrefixAtBoundary(s, prefix) <==>
            exists before, after ::
              Around(s, before, [], after) && Unmarked(before, prefix) && StartsAtMark(after)
              && (before == [] || !(before[|before| - 1] as int in {45, 46, 95}))
  {
    hide Around, Unmarked, StartsAtMark, EndsPrefixAt;
    if HasPrefixAtBoundary(s, prefix) {
      var n: nat :| n <= |s| && EndsPrefixAt(s, prefix, n);
      PrefixAt(s, prefix, n);
    }
    if before, after :| Around(s, before, [], after) && Unmarked(before, prefix) && StartsAtMark(after)
                        && (before == [] || !(before[|before| - 1] as int in {45, 46, 95}))
    {
      AroundPrefix(s, prefix, before, after);
    }
  }

  lemma BoundaryIs(c: char)
    ensures IsBoundary(c) <==> IsSeparator(c) || IsDigit(c)
  {
  }

  /**
   * When a name is blocked, in terms of its characters alone: without its
   * marks it is a reserved name or holds a long brand; or its first letters are
   * a prefix and a mark, a digit or nothing follows; or a short brand stands
   * between such, or shows only once marks inside it are left out.
   */
  lemma BlockedExactlyWhen(lists: Blocklists, name: string, letters: string)
    requires Unmarked(name, letters)
    ensures IsBlocked(lists, name) <==>
            || letters in lists.exact
            || (exists p, before, after ::
                  p in lists.prefixes && Around(name, before, [], after) && Unmarked(before, p) && StartsAtMark(after)
                  && (before == [] || !(before[|before| - 1] as int in {45, 46, 95})))
            || (exists b, before, after :: b in lists.longBrands && Around(letters, before, b, after))
            || (exists b, before, after ::
                  b in lists.shortBrands && Around(name, before, b, after) && EndsAtMark(before) && StartsAtMark(after))
            || (exists b, before, after ::
                  b in lists.shortBrands && letters != name && Around(letters, before, b, after))
  {
    hide Contains, StandsAlone, HasPrefixAtBoundary, Around, EndsAtMark, StartsAtMark, Unmarked, Strip;
    StripUnmarks(name, letters);
    forall p { PrefixAround(name, p); }
    forall b { ContainsAround(letters, b); }
    forall b { AloneAround(name, b); }
  }

  method MatchesAnyBlocklist(lists: Blocklists, candidate: string) returns (blocked: bool)
    ensures blocked <==> IsBlocked(lists, candidate)
  {
    var stripped := Strip(candidate);
    if stripped in lists.exact {
      return true;
    }
    for k := 0 to |lists.prefixes|
      invariant forall j | 0 <= j < k :: !HasPrefixAtBoundary(candidate, lists.prefixes[j])
    {
      var matches := MatchesPrefixAtBoundary(candidate, lists.prefixes[k]);
      if matches {
        return true;
      }
    }
    for k := 0 to |lists.longBrands|
      invariant forall j | 0 <= j < k :: !Contains(stripped, lists.longBrands[j])
    {
      if Contains(stripped, lists.longBrands[k]) {
        return true;
      }
    }
    for k := 0 to |lists.shortBrands|
      invariant forall j | 0 <= j < k ::
        !StandsAlone(candidate, lists.shortBrands[j])
          && !(candidate != stripped && Contains(stripped, lists.shortBrands[j]))
    {
      var brand := lists.shortBrands[k];
      if StandsAlone(candidate, brand) || (candidate != stripped && Contains(stripped, brand)) {
        return true;
      }
    }
    return false;
  }

  // What the guard is for: the name itself or some reading of it is blocked.
  ghost predicate Imitates(lists: Blocklists, lower: string) {
    IsBlocked(lists, lower) || exists v :: Deciphers(lower, v) && IsBlocked(lists, v)
  }

  // What it decides: beyond five ones it looks at two readings only.
  ghost predicate Refused(lists: Blocklists, lower: string) {
    if CountOnes(lower) <= 5 then Imitates(lists, lower)
    else
      || IsBlocked(lists, lower)
      || exists v :: (DeciphersWith(lower, 'i', v) || DeciphersWith(lower, 'l', v)) && IsBlocked(lists, v)
  }

  // The same in terms of the base and its readings.
  lemma ThroughReadings(lists: Blocklists, lower: string)
    ensures var base := Base(lower);
            && CountOnes(base) == CountOnes(lower)
            && (Imitates(lists, lower) <==>
                IsBlocked(lists, lower) || exists v :: IsReading(base, v) && IsBlocked(lists, v))
            && (CountOnes(lower) > 5 ==>
                  (Refused(lists, lower) <==>
                   || IsBlocked(lists, lower) || IsBlocked(lists, AllAs(base, 'i'))
                   || IsBlocked(lists, AllAs(base, 'l'))))
  {
    hide IsBlocked, IsReading, Deciphers, AllAs, DeciphersWith;
    OnesStayInPlace(lower);
    forall v
      ensures IsReading(Base(lower), v) <==> Deciphers(lower, v)
      ensures v == AllAs(Base(lower), 'i') <==> DeciphersWith(lower, 'i', v)
      ensures v == AllAs(Base(lower), 'l') <==> DeciphersWith(lower, 'l', v)
    {
      ReadingsDecipher(lower, v);
      AllAsDeciphers(lower, 'i', v);
      AllAsDeciphers(lower, 'l', v);
    }
  }

  /** A name with at most five ones is refused if it spells a word of letters that is blocked. */
  lemma SpelledWordsAreRefused(lists: Blocklists, lower: string, word: string)
    requires CountOnes(lower) <= 5 && Spells(lower, word) && (forall c | c in word :: 'a' <= c <= 'z')
    requires IsBlocked(lists, word)
    ensures Refused(lists, lower)
  {
    ReadingsDecipher(lower, word);
  }

  method IsImpersonation(lists: Blocklists, lower: string) returns (refused: bool)
    ensures refused <==> Refused(lists, lower)
  {
    var variants := LeetVariants(lower);
    refused := MatchesAnyBlocklist(lists, lower);
    var k := 0;
    while k < |variants| && !refused
      invariant k <= |variants|
      invariant refused <==> IsBlocked(lists, lower) || exists j :: 0 <= j < k && IsBlocked(lists, variants[j])
    {
      refused := MatchesAnyBlocklist(lists, variants[k]);
      k := k + 1;
    }
    VariantsDecide(lists, lower, variants);
  }

  lemma VariantsDecide(lists: Blocklists, lower: string, variants: seq<string>)
    requires if CountOnes(lower) <= 5 then forall v :: v in variants <==> Deciphers(lower, v)
             else |variants| == 2 && DeciphersWith(lower, 'i', variants[0]) && DeciphersWith(lower, 'l', variants[1])
    ensures Refused(lists, lower) <==>
            IsBlocked(lists, lower) || exists j :: 0 <= j < |variants| && IsBlocked(lists, variants[j])
  {
    hide IsBlocked, Deciphers, DeciphersWith;
    if CountOnes(lower) <= 5 {
      if v :| Deciphers(lower, v) && IsBlocked(lists, v) {
        assert v in variants;
      }
      if j :| 0 <= j < |variants| && IsBlocked(lists, variants[j]) {
        assert variants[j] in variants;
      }
    } else {
      AllAsDeciphers(lower, 'i', variants[0]);
      AllAsDeciphers(lower, 'l', variants[1]);
      ThroughReadings(lists, lower);
    }
  }

  // ---- Names with more ones ---------------------------------------------------------------------

  // Stripped readings of one base differ where the readings do.
  lemma {:induction false} StripTellsReadings(base: string, v: string, w: string)
    requires IsReading(base, v) && IsReading(base, w) && Strip(v) == Strip(w)
    ensures v == w
  {
    if base != [] {
      assert IsReading(base[1..], v[1..]) && IsReading(base[1..], w[1..]);
      assert v == [v[0]] + v[1..] && w == [w[0]] + w[1..];
      assert IsSeparator(v[0]) <==> IsSeparator(w[0]);
      if !IsSeparator(v[0]) {
        assert Strip(v)[0] == v[0] && Strip(w)[0] == w[0];
        assert Strip(v)[1..] == Strip(v[1..]) && Strip(w)[1..] == Strip(w[1..]);
      } else {
        assert [] + Strip(v[1..]) == Strip(v[1..]) && [] + Strip(w[1..]) == Strip(w[1..]);
      }
      StripTellsReadings(base[1..], v[1..], w[1..]);
    }
  }

  lemma {:induction false} StripKeeps(s: string, c: char)
    requires !IsSeparator(c)
    ensures c in Strip(s) <==> c in s
  {
    if s != [] {
      StripKeeps(s[1..], c);
      assert s == [s[0]] + s[1..];
    }
  }

  lemma {:induction false} SomeOne(s: string) returns (p: nat)
    requires CountOnes(s) > 0
    ensures p < |s| && s[p] == '1' && CountOnes(s[p + 1..]) == CountOnes(s) - 1
  {
    if s[0] == '1' {
      p := 0;
    } else {
      var q := SomeOne(s[1..]);
      p := q + 1;
      assert s[p + 1..] == s[1..][q + 1..];
    }
  }

  // A list that blocks one name only, separators aside.
  function Only(name: string): Blocklists {
    Blocklists({name}, [], [], [])
  }

  // With two ones there is a reading that is neither all i nor all l.
  lemma MixedReading(base: string) returns (v: string)
    requires CountOnes(base) >= 2
    ensures IsReading(base, v) && v != AllAs(base, 'i') && v != AllAs(base, 'l')
  {
    var p := SomeOne(base);
    var q := SomeOne(base[p + 1..]);
    assert base[p + 1..][q] == base[p + 1 + q];
    v := AllAs(base, 'i')[p := 'l'];
    assert v[p + 1 + q] == 'i';
  }

  // A name with more ones is accepted although a reading of it is blocked.
  lemma SixOnesSlipThrough(lower: string) returns (lists: Blocklists)
    requires CountOnes(Base(lower)) > 5
    ensures Imitates(lists, lower) && !Refused(lists, lower)
  {
    var base := Base(lower);
    OnesStayInPlace(lower);
    var v := MixedReading(base);
    lists := Only(Strip(v));
    var p := SomeOne(base);
    assert lower[p] == '1' && '1' in lower && '1' !in v;
    StripKeeps(lower, '1');
    StripKeeps(v, '1');
    if Strip(AllAs(base, 'i')) == Strip(v) { StripTellsReadings(base, AllAs(base, 'i'), v); }
    if Strip(AllAs(base, 'l')) == Strip(v) { StripTellsReadings(base, AllAs(base, 'l'), v); }
    assert IsBlocked(lists, v);
    ThroughReadings(lists, lower);
  }

  /**
   * For a given name, the guard does what it is for, whatever is blocked, exactly if
   * the name has at most five ones.
   */
  lemma ExactUpToFiveOnes(lower: string)
    ensures (forall lists :: Refused(lists, lower) <==> Imitates(lists, lower)) <==>
            CountOnes(lower) <= 5
  {
    hide Imitates, IsBlocked, DeciphersWith;
    OnesStayInPlace(lower);
    if CountOnes(lower) > 5 {
      var lists := SixOnesSlipThrough(lower);
    }
  }

  // A part that starts with a letter the name holds only at its start is in the name only as a prefix.
  lemma OnlyAtStart(s: string, part: string)
    requires part != [] && forall i | 0 < i < |s| :: s[i] != part[0]
    ensures Contains(s, part) ==> part <= s
  {
    forall i | 0 < i <= |s| ensures !(part <= s[i..]) {
      if i < |s| {
        assert s[i..][0] == s[i];
      }
    }
    assert s[0..] == s;
  }

  const GITLAB_ONLY := Blocklists({}, [], ["gitlab"], [])

  lemma BlockedOnlyAsPrefix(name: string)
    requires (forall c | c in name :: !IsSeparator(c)) && forall i | 0 < i < |name| :: name[i] != 'g'
    ensures IsBlocked(GITLAB_ONLY, name) <==> "gitlab" <= name
  {
    NoSeparators(name);
    OnlyAtStart(name, "gitlab");
    assert name[0..] == name;
    assert forall b | b in GITLAB_ONLY.longBrands :: b == "gitlab";
    assert GITLAB_ONLY.longBrands[0] == "gitlab";
  }

  const G1TLAB := "g1t1ab1111"

  lemma ReadingsOfName()
    ensures Base(G1TLAB) == G1TLAB
    ensures AllAs(G1TLAB, 'i') == "gitiabiiii" && AllAs(G1TLAB, 'l') == "gltlabllll"
    ensures IsReading(G1TLAB, "gitlabiiii")
  {
  }

  lemma NoneIsBlocked()
    ensures !IsBlocked(GITLAB_ONLY, G1TLAB)
    ensures !IsBlocked(GITLAB_ONLY, "gitiabiiii")
    ensures !IsBlocked(GITLAB_ONLY, "gltlabllll")
  {
    hide IsBlocked;
    assert G1TLAB[1] != "gitlab"[1] && "gitiabiiii"[3] != "gitlab"[3] && "gltlabllll"[1] != "gitlab"[1];
    BlockedOnlyAsPrefix(G1TLAB);
    BlockedOnlyAsPrefix("gitiabiiii");
    BlockedOnlyAsPrefix("gltlabllll");
  }

  lemma MixedIsBlocked()
    ensures IsBlocked(GITLAB_ONLY, "gitlabiiii")
  {
    hide IsBlocked;
    BlockedOnlyAsPrefix("gitlabiiii");
    assert "gitlabiiii"[..6] == "gitlab";
  }

  /** A legal alias name with six ones: one reading holds a blocked brand, and the name is accepted. */
  lemma MixedBrandSlipsThrough()
    ensures Imitates(GITLAB_ONLY, G1TLAB) && !Refused(GITLAB_ONLY, G1TLAB)
  {
    hide IsBlocked, IsReading, AllAs, Base, Refused, Imitates;
    ReadingsOfName();
    ThroughReadings(GITLAB_ONLY, G1TLAB);
    SixOnes();
    NoneIsBlocked();
    MixedIsBlocked();
  }

  lemma SixOnes()
    ensures CountOnes(G1TLAB) == 6
  {
    assert CountOnes("1111") == 4;
    assert CountOnes("1ab1111") == 1 + CountOnes("ab1111") == 1 + CountOnes("b1111") == 5;
    assert CountOnes("g1t1ab1111") == CountOnes("1t1ab1111") == 1 + CountOnes("t1ab1111");
  }

  lemma {:induction false} NoSeparators(s: string)
    requires forall c | c in s :: !IsSeparator(c)
    ensures Strip(s) == s
  {
    if s != [] {
      NoSeparators(s[1..]);
      assert s == [s[0]] + s[1..];
    }
  }
}
