/**
 * The first-bounce notice and its one-tap button: each SQL statement on an
 * alias's activation row as a function, the tables they run on as a class,
 * and the button's transaction with its savepoint and commit.
 */
module Activation {
  datatype Option<+T> = None | Some(value: T)

  type Token = string
  type Domain = string
  type AliasId = string

  const HOUR := 3_600_000
  const CLAIM_BUDGET := 3
  const CLAIM_WINDOW := 24 * HOUR
  const TOKEN_TTL := 7 * 24 * HOUR
  const MAX_DOMAIN_LENGTH := 253

  datatype Status = Active | Paused | Deleted
  datatype Alias = Alias(status: Status, owner: int, chat: int, version: nat)

  /** The `alias_activation` row of one alias. */
  datatype Row = Row(
    claimsUsed: nat, lastClaimAt: Option<int>, firstNoticeAt: Option<int>, token: Option<Token>, expiresAt: Option<int>,
    domain: Option<Domain>, chatId: Option<int>, routingVersion: Option<nat>, firstDeliveredAt: Option<int>,
    sentAt: Option<int>, firstSentAt: Option<int>)

  // ---- Domains as rule values ---------------------------------------------------

  predicate IsAlphanumeric(c: char) {
    'a' <= c <= 'z' || '0' <= c <= '9'
  }

  predicate IsPlain(s: string) {
    forall i | 0 <= i < |s| :: IsAlphanumeric(s[i]) || s[i] == '-' || s[i] == '.'
  }

  // Two or more labels of letters, digits and inner hyphens, joined by dots.
  predicate IsDomain(s: string) {
    && IsPlain(s) && '.' in s && IsAlphanumeric(s[0]) && IsAlphanumeric(s[|s| - 1])
    && forall i | 0 < i < |s| - 1 && s[i] == '.' :: IsAlphanumeric(s[i - 1]) && IsAlphanumeric(s[i + 1])
  }

  ghost predicate KeepsPlain(f: string -> string) {
    forall s | IsPlain(s) :: f(s) == s
  }

  /** Trimming and lower-casing, of which only this matters: plain strings stay as they are. */
  type Folding = f: string -> string | KeepsPlain(f) witness (s: string) => s

  // The value as a domain rule, None when it is not one.
  function DomainRule(fold: Folding, value: string): Option<Domain> {
    var normalized := fold(value);
    if IsDomain(normalized) then Some(normalized) else None
  }

  lemma DomainRuleIsStable(fold: Folding, value: string)
    requires DomainRule(fold, value).Some?
    ensures DomainRule(fold, DomainRule(fold, value).value) == DomainRule(fold, value)
  {
    assert IsPlain(fold(value));
  }

  function UsableFromDomain(fold: Folding, value: Option<string>): (r: Option<Domain>)
    ensures r.Some? ==> |r.value| <= MAX_DOMAIN_LENGTH && DomainRule(fold, r.value) == r
  {
    var rule := if value.Some? then DomainRule(fold, value.value) else None;
    if rule.None? then None
    else
      DomainRuleIsStable(fold, value.value);
      if |rule.value| <= MAX_DOMAIN_LENGTH then rule else None
  }

  /** What authenticating one message came to. */
  datatype SenderAuth = SenderAuth(pass: bool, headerFromDomain: Option<string>, authenticatedDomains: seq<string>)

  // The domain was authenticated for a message whose header From names it.
  predicate Authenticates(fold: Folding, auth: SenderAuth, domain: Domain) {
    && auth.pass && UsableFromDomain(fold, auth.headerFromDomain) == Some(domain)
    && exists d | d in auth.authenticatedDomains :: fold(d) == domain
  }

  function OneTapDomain(fold: Folding, auth: SenderAuth, headerFrom: Option<string>): Option<Domain> {
    var domain := UsableFromDomain(fold, headerFrom);
    if domain.Some? && Authenticates(fold, auth, domain.value) then domain else None
  }

  // The labels of a domain: what stands between its dots.
  function Labels(s: string): seq<string> {
    var dot := FirstDot(s);
    if dot == |s| then [s] else [s[..dot]] + Labels(s[dot + 1..])
  }

  function FirstDot(s: string): (n: nat)
    ensures n <= |s| && (n < |s| ==> s[n] == '.') && forall i | 0 <= i < n :: s[i] != '.'
  {
    if s == [] || s[0] == '.' then 0 else 1 + FirstDot(s[1..])
  }

  predicate LetterOrDigit(c: char) {
    97 <= c as int <= 122 || 48 <= c as int <= 57
  }

  // Letters and digits, with hyphens inside only.
  predicate IsLabel(s: string) {
    && s != [] && LetterOrDigit(s[0]) && LetterOrDigit(s[|s| - 1])
    && forall i | 0 <= i < |s| :: LetterOrDigit(s[i]) || s[i] as int == 45
  }

  // Letters or digits at both ends and on both sides of every dot between them.
  predicate Flanked(s: string) {
    && s != [] && IsPlain(s) && IsAlphanumeric(s[0]) && IsAlphanumeric(s[|s| - 1])
    && forall i {:trigger DotFlanked(s, i)} | 0 < i < |s| - 1 && s[i] == '.' :: DotFlanked(s, i)
  }

  predicate DotFlanked(s: string, i: nat)
    requires 0 < i < |s| - 1
  {
    IsAlphanumeric(s[i - 1]) && IsAlphanumeric(s[i + 1])
  }

  // A label, in terms of the same characters.
  predicate Unbroken(s: string) {
    Flanked(s) && '.' !in s
  }

  lemma UnbrokenIsLabel(s: string)
    ensures Unbroken(s) <==> IsLabel(s)
  {
    assert '-' as int == 45 && '.' as int == 46;
    forall i | 0 <= i < |s| ensures LetterOrDigit(s[i]) <==> IsAlphanumeric(s[i]) {}
  }

  lemma FlankedFirst(s: string, dot: nat)
    requires dot < |s| && s[dot] == '.' && (forall i | 0 <= i < dot :: s[i] != '.') && Flanked(s)
    ensures 0 < dot < |s| - 1 && Unbroken(s[..dot]) && IsAlphanumeric(s[dot + 1])
  {
    hide IsAlphanumeric;
    assert !IsAlphanumeric('.') by { DotIsNoLetter(); }
    assert 0 < dot < |s| - 1;
    assert DotFlanked(s, dot);
    var a := s[..dot];
    assert a[0] == s[0] && a[|a| - 1] == s[dot - 1];
  }

  lemma FlankedRest(s: string, dot: nat)
    requires 0 < dot < |s| - 1 && Flanked(s) && IsAlphanumeric(s[dot + 1])
    ensures Flanked(s[dot + 1..])
  {
    hide IsAlphanumeric;
    var b := s[dot + 1..];
    assert b[0] == s[dot + 1] && b[|b| - 1] == s[|s| - 1];
    forall i | 0 < i < |b| - 1 && b[i] == '.' ensures DotFlanked(b, i) {
      assert s[dot + 1 + i] == b[i] && DotFlanked(s, dot + 1 + i);
      assert s[dot + i] == b[i - 1] && s[dot + 2 + i] == b[i + 1];
    }
  }

  lemma DotIsNoLetter()
    ensures !IsAlphanumeric('.')
  {
  }

  lemma PlainWhole(s: string, dot: nat)
    requires dot == FirstDot(s) < |s| && IsPlain(s[..dot]) && IsPlain(s[dot + 1..])
    ensures IsPlain(s)
  {
    hide IsAlphanumeric;
    var a, b := s[..dot], s[dot + 1..];
    forall i | 0 <= i < |s| ensures IsAlphanumeric(s[i]) || s[i] == '-' || s[i] == '.' {
      assert if i < dot then s[i] == a[i] else i == dot || s[i] == b[i - dot - 1];
    }
  }

  lemma DotOfWhole(s: string, dot: nat, i: nat)
    requires dot == FirstDot(s) < |s| && Unbroken(s[..dot]) && Flanked(s[dot + 1..])
    requires 0 < i < |s| - 1 && s[i] == '.'
    ensures DotFlanked(s, i)
  {
    hide IsAlphanumeric;
    var a, b := s[..dot], s[dot + 1..];
    if i == dot {
      assert s[i - 1] == a[|a| - 1] && s[i + 1] == b[0];
    } else {
      assert b[0] != '.' by { DotIsNoLetter(); }
      assert i > dot + 1 && b[i - dot - 1] == '.' && DotFlanked(b, i - dot - 1);
      assert s[i - 1] == b[i - dot - 2] && s[i + 1] == b[i - dot];
    }
  }

  lemma FlankedWhole(s: string, dot: nat)
    requires dot == FirstDot(s) < |s| && Unbroken(s[..dot]) && Flanked(s[dot + 1..])
    ensures Flanked(s)
  {
    hide IsAlphanumeric, IsPlain, FirstDot;
    var a, b := s[..dot], s[dot + 1..];
    PlainWhole(s, dot);
    assert s[0] == a[0];
    forall i | 0 < i < |s| - 1 && s[i] == '.' ensures DotFlanked(s, i) { DotOfWhole(s, dot, i); }
    assert b[|b| - 1] == s[|s| - 1];
  }

  predicate AllLabels(parts: seq<string>) {
    forall l | l in parts :: IsLabel(l)
  }

  lemma LabelAndRest(first: string, rest: seq<string>)
    ensures AllLabels([first] + rest) <==> IsLabel(first) && AllLabels(rest)
  {
    hide IsLabel;
    assert forall l :: l in [first] + rest <==> l == first || l in rest;
  }

  lemma NoLabels()
    ensures AllLabels([])
  {
  }

  lemma {:induction false} FlankedExactlyWhen(s: string)
    ensures Flanked(s) <==> AllLabels(Labels(s))
  {
    hide Flanked, IsLabel, AllLabels;
    var dot := FirstDot(s);
    if dot == |s| {
      UnbrokenIsLabel(s);
      LabelAndRest(s, []);
      NoLabels();
      assert [s] + [] == [s];
    } else {
      var a, b := s[..dot], s[dot + 1..];
      UnbrokenIsLabel(a);
      FlankedExactlyWhen(b);
      if Flanked(s) {
        FlankedFirst(s, dot);
        FlankedRest(s, dot);
      } else if Unbroken(a) && Flanked(b) {
        FlankedWhole(s, dot);
      }
      LabelAndRest(a, Labels(b));
    }
  }

  /** A domain rule has at least two labels, of letters, digits and inner hyphens. */
  lemma DomainExactlyWhen(s: string)
    ensures IsDomain(s) <==> |Labels(s)| >= 2 && forall l | l in Labels(s) :: IsLabel(l)
  {
    FlankedExactlyWhen(s);
    if IsDomain(s) {
      forall i | 0 < i < |s| - 1 && s[i] == '.' ensures DotFlanked(s, i) {}
    }
    if Flanked(s) {
      forall i | 0 < i < |s| - 1 && s[i] == '.' ensures IsAlphanumeric(s[i - 1]) && IsAlphanumeric(s[i + 1]) {
        assert DotFlanked(s, i);
      }
    }
    assert '.' in s ==> FirstDot(s) < |s|;
    assert FirstDot(s) < |s| ==> |Labels(s[FirstDot(s) + 1..])| >= 1;
  }

  // A header From names a domain rule of at most 253 characters.
  ghost predicate Names(fold: Folding, headerFrom: Option<string>, domain: Domain) {
    && headerFrom.Some? && fold(headerFrom.value) == domain
    && |Labels(domain)| >= 2 && |domain| <= 253 && forall l | l in Labels(domain) :: IsLabel(l)
  }

  /**
   * The button offers a domain exactly if the header From names it, both as
   * received and as authenticated, the check passed, and the domain is among
   * those it authenticated.
   */
  lemma OneTapExactlyWhen(fold: Folding, auth: SenderAuth, headerFrom: Option<string>, domain: Domain)
    ensures UsableFromDomain(fold, headerFrom) == Some(domain) <==> Names(fold, headerFrom, domain)
    ensures OneTapDomain(fold, auth, headerFrom) == Some(domain) <==>
            && auth.pass && Names(fold, headerFrom, domain) && Names(fold, auth.headerFromDomain, domain)
            && exists d | d in auth.authenticatedDomains :: fold(d) == domain
  {
    DomainExactlyWhen(domain);
  }

  // ---- Statements -----------------------------------------------------------------

  predicate Live(row: Row, now: int) {
    row.expiresAt.Some? && row.expiresAt.value > now
  }

  predicate Matches(row: Option<Row>, token: Token, now: int) {
    row.Some? && row.value.token == Some(token) && Live(row.value, now)
  }

  predicate MayClaim(row: Row, now: int) {
    && row.firstDeliveredAt.None? && row.claimsUsed < CLAIM_BUDGET
    && (row.lastClaimAt.None? || row.lastClaimAt.value <= now - CLAIM_WINDOW)
  }

  function EmptyRow(): Row {
    Row(0, None, None, None, None, None, None, None, None, None, None)
  }

  // Insert the first claim, or spend one more when the row allows it.
  function Claimed(row: Option<Row>, token: Token, chat: int, version: nat, now: int): Option<Row> {
    if row.Some? && !MayClaim(row.value, now) then None
    else
      var r := if row.Some? then row.value else EmptyRow();
      Some(r.(claimsUsed := r.claimsUsed + 1, lastClaimAt := Some(now),
              firstNoticeAt := if r.firstNoticeAt.Some? then r.firstNoticeAt else Some(now),
              token := Some(token), expiresAt := Some(now + TOKEN_TTL), domain := None,
              chatId := Some(chat), routingVersion := Some(version)))
  }

  function DomainSet(row: Option<Row>, token: Token, domain: Domain, now: int): Option<Row> {
    if Matches(row, token, now) then Some(row.value.(domain := Some(domain))) else row
  }

  function Consumed(row: Option<Row>, token: Token, now: int): Option<Row> {
    if Matches(row, token, now) then Some(row.value.(token := None)) else row
  }

  // The marker is written once and never moved.
  function FirstDelivered(row: Option<Row>, at: int): Option<Row> {
    if row.None? then Some(EmptyRow().(firstDeliveredAt := Some(at)))
    else if row.value.firstDeliveredAt.Some? then row
    else Some(row.value.(firstDeliveredAt := Some(at)))
  }

  function ExpiredCleared(row: Option<Row>, now: int): Option<Row> {
    if row.Some? && row.value.expiresAt.Some? && row.value.expiresAt.value < now
    then Some(row.value.(token := None, domain := None)) else row
  }

  function NoticeSent(row: Option<Row>, now: int): Option<Row> {
    if row.None? then None
    else Some(row.value.(sentAt := Some(now),
                         firstSentAt := if row.value.firstSentAt.Some? then row.value.firstSentAt else Some(now)))
  }

  // ---- Exactly when -----------------------------------------------------------------

  /**
   * A claim is taken exactly if the alias has no row yet, or has not
   * delivered, has taken fewer than three claims, and the last of them at
   * least 24 hours ago. It renews the token for seven days, forgets the last
   * domain, and keeps the rest of the row.
   */
  lemma ClaimExactlyWhen(row: Option<Row>, token: Token, chat: int, version: nat, now: int)
    ensures var claimed := Claimed(row, token, chat, version, now);
            && (claimed.Some? <==>
                row.Some? ==>
                  var r := row.value;
                  && r.firstDeliveredAt.None? && r.claimsUsed < 3
                  && (r.lastClaimAt.Some? ==> now - r.lastClaimAt.value >= 86_400_000))
            && (claimed.Some? ==>
                  var c, r := claimed.value, if row.Some? then row.value else EmptyRow();
                  && c.claimsUsed == r.claimsUsed + 1 && c.lastClaimAt == Some(now)
                  && c.token == Some(token) && c.expiresAt == Some(now + 604_800_000) && c.domain.None?
                  && c.chatId == Some(chat) && c.routingVersion == Some(version)
                  && c.firstNoticeAt == (if r.firstNoticeAt.Some? then r.firstNoticeAt else Some(now))
                  && c.firstDeliveredAt == r.firstDeliveredAt && c.sentAt == r.sentAt && c.firstSentAt == r.firstSentAt)
  {
  }

  /** The token of a claim works for exactly the seven days after it. */
  lemma TokenLivesSevenDays(row: Option<Row>, token: Token, chat: int, version: nat, at: int, now: int)
    requires Claimed(row, token, chat, version, at).Some?
    ensures Matches(Claimed(row, token, chat, version, at), token, now) <==> now < at + 604_800_000
    ensures forall other | other != token :: !Matches(Claimed(row, token, chat, version, at), other, now)
  {
  }

  // The row has this token and it has not expired.
  predicate Holds(row: Option<Row>, token: Token, now: int) {
    row.Some? && row.value.token == Some(token) && row.value.expiresAt.Some? && now < row.value.expiresAt.value
  }

  /**
   * The other statements: which column each may change, and when. A live token
   * is needed to store a domain and to be spent, and is not cleared; the first
   * delivery and the first acknowledgement are never overwritten.
   */
  lemma StatementsExactlyWhen(row: Option<Row>, token: Token, domain: Domain, now: int)
    ensures DomainSet(row, token, domain, now) ==
            if Holds(row, token, now) then Some(row.value.(domain := Some(domain))) else row
    ensures Consumed(row, token, now) == if Holds(row, token, now) then Some(row.value.(token := None)) else row
    ensures Holds(row, token, now) ==> ExpiredCleared(row, now) == row
    ensures var r := ExpiredCleared(row, now);
            r != row ==> row.Some? && row.value.expiresAt.Some? && row.value.expiresAt.value < now
                         && r == Some(row.value.(token := None, domain := None))
    ensures row.Some? && row.value.expiresAt.Some? && row.value.expiresAt.value < now ==>
              var r := ExpiredCleared(row, now); r.Some? && r.value.token.None? && r.value.domain.None?
    ensures var r := FirstDelivered(row, now);
            r.Some? && r.value == (if row.Some? then row.value else EmptyRow()).(firstDeliveredAt :=
              if row.Some? && row.value.firstDeliveredAt.Some? then row.value.firstDeliveredAt else Some(now))
    ensures row.Some? ==>
              var r := NoticeSent(row, now);
              r.Some? && r.value == row.value.(sentAt := Some(now), firstSentAt := r.value.firstSentAt)
              && r.value.firstSentAt == (if row.value.firstSentAt.Some? then row.value.firstSentAt else Some(now))
    ensures row.None? ==> NoticeSent(row, now).None?
  {
  }

  // ---- The button's transaction -----------------------------------------------------

  /** What the tables hold about one alias. */
  datatype AliasState = AliasState(alias: Option<Alias>, row: Option<Row>, rules: set<Domain>)

  datatype Outcome = Added(domain: Domain) | Duplicate(domain: Domain) | Limit(domain: Domain)
    | Failed(domain: Domain) | Expired
  datatype Reply = Committed(outcome: Outcome) | RolledBack

  /** What may go wrong in one tap. */
  datatype Fault = NoFault | InsertFails | CommitFails

  // The alias is still what it was when the claim was taken.
  predicate StillClaimed(alias: Option<Alias>, owner: int, row: Row) {
    && alias.Some? && alias.value.owner == owner && alias.value.status.Active?
    && row.chatId == Some(alias.value.chat) && row.routingVersion == Some(alias.value.version)
  }

  // Spend the token and, if nothing changed since the claim, add the rule.
  function SpendAndAdd(s: AliasState, token: Token, now: int, fold: Folding, limitAllows: bool, insertFails: bool):
    (AliasState, Outcome)
  {
    if s.alias.None? || !Matches(s.row, token, now) then (s, Expired)
    else
      var spent := s.(row := Consumed(s.row, token, now));
      var rule := if s.row.value.domain.Some? then DomainRule(fold, s.row.value.domain.value) else None;
      if rule.None? || !StillClaimed(s.alias, s.alias.value.owner, s.row.value) then (spent, Expired)
      else if insertFails then (spent, Failed(rule.value))
      else if rule.value in s.rules then (spent, Duplicate(rule.value))
      else if !limitAllows then (spent, Limit(rule.value))
      else (spent.(rules := s.rules + {rule.value}), Added(rule.value))
  }

  function Tap(
    s: AliasState, token: Token, now: int, fold: Folding, limitAllows: bool, fault: Fault): (AliasState, Reply) {
    var (after, outcome) := SpendAndAdd(s, token, now, fold, limitAllows, fault.InsertFails?);
    if fault.CommitFails? then (s, RolledBack) else (after, Committed(outcome))
  }

  /**
   * A tap with a live token spends it unless the commit fails, whatever
   * becomes of the insert; without a live token a tap changes nothing; and a
   * rule is added only to an active alias on the chat and routing version of
   * the claim.
   */
  lemma TapSpendsOrLeaves(s: AliasState, token: Token, now: int, fold: Folding, limitAllows: bool, fault: Fault)
    ensures var (after, reply) := Tap(s, token, now, fold, limitAllows, fault);
            && (!fault.CommitFails? && s.alias.Some? && Matches(s.row, token, now) ==>
                  after.row.Some? && after.row.value == s.row.value.(token := None))
            && (fault.CommitFails? || s.alias.None? || !Matches(s.row, token, now) ==> after == s)
            && (after.rules != s.rules <==> reply.Committed? && reply.outcome.Added?)
            && (after.rules != s.rules ==>
                  && reply.Committed? && reply.outcome.Added? && after.rules == s.rules + {reply.outcome.domain}
                  && s.row.Some? && s.row.value.domain.Some?
                     && DomainRule(fold, s.row.value.domain.value) == Some(reply.outcome.domain)
                  && s.alias.Some? && s.alias.value.status.Active?
                  && s.row.value.chatId == Some(s.alias.value.chat)
                     && s.row.value.routingVersion == Some(s.alias.value.version))
            && after.alias == s.alias
            && (forall later, again | later >= now ::
                  !fault.CommitFails? && s.alias.Some? ==>
                    !Matches(Tap(after, token, later, fold, again, fault).0.row, token, later))
  {
  }

  // The token is live, and the alias is active and still where the claim was taken.
  predicate MayAdd(s: AliasState, token: Token, now: int) {
    && s.row.Some? && s.row.value.token == Some(token) && s.row.value.expiresAt.Some?
       && now < s.row.value.expiresAt.value
    && s.alias.Some? && s.alias.value.status == Active
    && Some(s.alias.value.chat) == s.row.value.chatId && Some(s.alias.value.version) == s.row.value.routingVersion
  }

  /**
   * What a tap that commits answers, and exactly when. With a live token, an
   * unchanged active alias and a stored domain: the rule is added if it is not
   * there, the plan has room and the insert goes through; otherwise the answer
   * is the first of a failed insert, a duplicate and the limit. In every other
   * case the tap has expired. No answer but the first adds a rule.
   */
  lemma TapAnswersExactlyWhen(s: AliasState, token: Token, now: int, fold: Folding, limitAllows: bool, fault: Fault)
    ensures var (after, reply) := Tap(s, token, now, fold, limitAllows, fault);
            && (reply.RolledBack? <==> fault == CommitFails)
            && (reply == Committed(Expired) <==>
                fault != CommitFails && !(MayAdd(s, token, now) && StoredRule(s, fold).Some?))
            && (reply.Committed? && MayAdd(s, token, now) && StoredRule(s, fold).Some? ==>
                  var d := StoredRule(s, fold).value;
                  && (reply == Committed(Failed(d)) <==> fault == InsertFails)
                  && (reply == Committed(Duplicate(d)) <==> fault == NoFault && d in s.rules)
                  && (reply == Committed(Limit(d)) <==> fault == NoFault && d !in s.rules && !limitAllows)
                  && (reply == Committed(Added(d)) <==> fault == NoFault && d !in s.rules && limitAllows)
                  && (d in after.rules <==> d in s.rules || (fault == NoFault && limitAllows)))
            && (!(reply.Committed? && reply.outcome.Added?) ==> after.rules == s.rules)
  {
  }

  // The domain stored with the claim, as a rule value.
  function StoredRule(s: AliasState, fold: Folding): Option<Domain> {
    if s.row.None? || s.row.value.domain.None? then None
    else
      var normalized := fold(s.row.value.domain.value);
      if IsDomain(normalized) then Some(normalized) else None
  }

  // ---- The tables ---------------------------------------------------------------------

  class Tables {
    var aliases: map<AliasId, Alias>
    var activation: map<AliasId, Row>
    var rules: map<AliasId, set<Domain>>

    constructor (aliases: map<AliasId, Alias>)
      ensures this.aliases == aliases && activation == map[] && rules == map[]
    {
      this.aliases, activation, rules := aliases, map[], map[];
    }

    function RowOf(id: AliasId): Option<Row>
      reads this`activation
    {
      if id in activation then Some(activation[id]) else None
    }

    function StateOf(id: AliasId): AliasState
      reads this
    {
      AliasState(if id in aliases then Some(aliases[id]) else None, RowOf(id), if id in rules then rules[id] else {})
    }

    // Only the activation row of `id` may differ.
    twostate predicate OnlyRow(id: AliasId)
      reads this
    {
      forall other | other != id :: RowOf(other) == old(RowOf(other))
    }

    // An upsert whose DO UPDATE has a WHERE: it returns the token when it wrote the row.
    method ClaimActivationNotice(id: AliasId, token: Token, chat: int, version: nat, now: int) returns (won: bool)
      modifies this`activation
      ensures RowOf(id) == var claimed := Claimed(old(RowOf(id)), token, chat, version, now);
                           if claimed.Some? then claimed else old(RowOf(id))
      ensures won == Claimed(old(RowOf(id)), token, chat, version, now).Some?
      ensures OnlyRow(id)
    {
      if id !in activation {
        activation := activation[id :=
                                 Row(1, Some(now), Some(now), Some(token), Some(now + TOKEN_TTL), None, Some(chat),
                                           Some(version), None, None, None)];
        return true;
      }
      var row := activation[id];
      if row.firstDeliveredAt.Some? || row.claimsUsed >= CLAIM_BUDGET {
        return false;
      }
      if row.lastClaimAt.Some? && row.lastClaimAt.value > now - CLAIM_WINDOW {
        return false;
      }
      activation := activation[id := row.(
        claimsUsed := row.claimsUsed + 1, lastClaimAt := Some(now),
        firstNoticeAt := if row.firstNoticeAt.Some? then row.firstNoticeAt else Some(now),
        token := Some(token), expiresAt := Some(now + TOKEN_TTL), domain := None,
        chatId := Some(chat), routingVersion := Some(version))];
      return true;
    }

    method SetActivationDomain(id: AliasId, token: Token, domain: Domain, now: int) returns (updated: bool)
      modifies this`activation
      ensures RowOf(id) == DomainSet(old(RowOf(id)), token, domain, now)
              && updated == Matches(old(RowOf(id)), token, now)
      ensures OnlyRow(id)
    {
      updated := Matches(RowOf(id), token, now);
      if updated {
        activation := activation[id := activation[id].(domain := Some(domain))];
      }
    }

    method ConsumeActivationToken(id: AliasId, token: Token, now: int) returns (claim: Option<Row>)
      modifies this`activation
      ensures RowOf(id) == Consumed(old(RowOf(id)), token, now)
      ensures claim == if Matches(old(RowOf(id)), token, now) then old(RowOf(id)) else None
      ensures OnlyRow(id)
    {
      if !Matches(RowOf(id), token, now) {
        return None;
      }
      claim := Some(activation[id]);
      activation := activation[id := activation[id].(token := None)];
    }

    method MarkAliasFirstDelivered(id: AliasId, now: int)
      modifies this`activation
      ensures RowOf(id) == FirstDelivered(old(RowOf(id)), now)
      ensures OnlyRow(id)
    {
      if id !in activation {
        activation := activation[id := EmptyRow().(firstDeliveredAt := Some(now))];
      } else if activation[id].firstDeliveredAt.None? {
        activation := activation[id := activation[id].(firstDeliveredAt := Some(now))];
      }
    }

    // One statement over all rows.
    method ClearExpiredActivationTokens(now: int)
      modifies this`activation
      ensures forall id :: RowOf(id) == ExpiredCleared(old(RowOf(id)), now)
    {
      activation := map id | id in activation :: ExpiredCleared(Some(activation[id]), now).value;
    }

    method RecordActivationNoticeSent(id: AliasId, now: int)
      modifies this`activation
      ensures RowOf(id) == NoticeSent(old(RowOf(id)), now)
      ensures OnlyRow(id)
    {
      if id in activation {
        var row := activation[id];
        activation := activation[id := row.(
          sentAt := Some(now), firstSentAt := if row.firstSentAt.Some? then row.firstSentAt else Some(now))];
      }
    }

    /** Adds one rule under the plan limit, if the alias is still what the caller saw; may fail half way. */
    method InsertAllowRule(
      id: AliasId, owner: int, rule: Domain, chat: int, version: nat, limitAllows: bool, fails: bool)
      returns (result: Option<Outcome>)
      modifies this`rules
      ensures var s := old(StateOf(id));
              if fails then result.None?
              else if s.alias.None? || s.alias.value.owner != owner || !s.alias.value.status.Active?
                || s.alias.value.chat != chat || s.alias.value.version != version then
                  rules == old(rules) && result == Some(Expired)
              else if rule in s.rules then rules == old(rules) && result == Some(Duplicate(rule))
              else if !limitAllows then rules == old(rules) && result == Some(Limit(rule))
              else rules == old(rules)[id := s.rules + {rule}] && result == Some(Added(rule))
    {
      if id !in aliases {
        return if fails then None else Some(Expired);
      }
      var current := aliases[id];
      if !current.status.Active? || current.owner != owner || current.chat != chat || current.version != version {
        return if fails then None else Some(Expired);
      }
      var existing := if id in rules then rules[id] else {};
      if rule in existing {
        return if fails then None else Some(Duplicate(rule));
      }
      if !limitAllows {
        return if fails then None else Some(Limit(rule));
      }
      rules := rules[id := existing + {rule}];
      return if fails then None else Some(Added(rule));
    }

    /**
     * One transaction: spend the token, check the alias against the claim,
     * add the rule inside a savepoint, commit. A failing insert rolls back to
     * the savepoint, a failing commit to the start.
     */
    method ApplyActivationAllow(id: AliasId, token: Token, now: int, fold: Folding, limitAllows: bool, fault: Fault)
      returns (reply: Reply)
      modifies this
      ensures (StateOf(id), reply) == Tap(old(StateOf(id)), token, now, fold, limitAllows, fault)
      ensures forall other | other != id :: StateOf(other) == old(StateOf(other))
      ensures aliases == old(aliases)
    {
      var activationBefore, rulesBefore := activation, rules;
      var outcome := SpendAndInsert(id, token, now, fold, limitAllows, fault.InsertFails?);
      if fault.CommitFails? {
        activation, rules := activationBefore, rulesBefore;
        return RolledBack;
      }
      return Committed(outcome);
    }

    method SpendAndInsert(id: AliasId, token: Token, now: int, fold: Folding, limitAllows: bool, insertFails: bool)
      returns (outcome: Outcome)
      modifies this`activation, this`rules
      ensures (StateOf(id), outcome) == SpendAndAdd(old(StateOf(id)), token, now, fold, limitAllows, insertFails)
      ensures forall other | other != id :: StateOf(other) == old(StateOf(other))
    {
      if id !in aliases {
        return Expired;
      }
      var alias := aliases[id];
      var claim := ConsumeActivationToken(id, token, now);
      if claim.None? {
        return Expired;
      }
      var row := claim.value;
      var rule := if row.domain.Some? then DomainRule(fold, row.domain.value) else None;
      if !alias.status.Active? || row.chatId.None? || row.routingVersion.None? || alias.chat != row.chatId.value
        || alias.version != row.routingVersion.value || rule.None?
      {
        return Expired;
      }
      var savepoint := rules;
      var inserted := InsertAllowRule(id, alias.owner, rule.value, row.chatId.value, row.routingVersion.value,
                                      limitAllows, insertFails);
      if inserted.None? {
        rules := savepoint;
        return Failed(rule.value);
      }
      return inserted.value;
    }
  }
}
