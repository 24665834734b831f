/**
 * Every interleaving of notice jobs, button taps, deliveries, moves and
 * cleanup on one alias. Each SQL statement or transaction is one step. Beside
 * the tables the state keeps a ledger of the claims ever taken, which no step
 * reads: it says what became of each claim's token.
 */
module ActivationRuns {
  import opened Activation

  datatype Gate = Gate(owner: int, chat: int, version: nat)

  /** Where a notice job stands. `claim` is the ledger entry of the claim it won. */
  datatype Phase =
    | Waiting
    | Gated(gate: Gate)
    | Holding(gate: Gate, claim: nat, authenticated: bool)
    | Eligible(claim: nat, oneTap: Option<Domain>)
    | Sent
    | Ended

  datatype Job = Job(headerFrom: Option<string>, phase: Phase)

  /** A rule added by a tap, and the alias as it was then. */
  datatype Addition = Addition(domain: Domain, alias: Alias)

  datatype Claim = Claim(
    job: nat, token: Token, chat: int, version: nat, at: int,
    proof: Option<SenderAuth>, spent: nat, notices: nat, added: seq<Addition>)

  datatype World = World(s: AliasState, jobs: seq<Job>, claims: seq<Claim>)

  datatype Action =
    | Admit(headerFrom: Option<string>)
    | ReadGate(job: nat, delivered: bool, recentlyCreated: bool, ownerNeverAccepted: bool)
    | TakeClaim(job: nat, token: Token, now: int)
    | Authenticate(job: nat, auth: SenderAuth, storeFails: bool, now: int)
    | Revalidate(job: nat, delivered: bool, now: int)
    | Send(job: nat)
    | RecordSent(job: nat, now: int)
    | TapButton(token: Token, limitAllows: bool, fault: Fault, now: int)
    | Move(chat: int)
    | ChangeTopic
    | SetStatus(status: Status)
    | Deliver(now: int)
    | ClearExpired(now: int)
    | EditRules(rules: set<Domain>)
    | Abandon(job: nat)

  // ---- Steps ------------------------------------------------------------------------

  function At(w: World, job: nat): Phase {
    if job < |w.jobs| then w.jobs[job].phase else Ended
  }

  function Advance(w: World, job: nat, phase: Phase): World
    requires job < |w.jobs|
  {
    w.(jobs := w.jobs[job := w.jobs[job].(phase := phase)])
  }

  predicate Marked(s: AliasState) {
    s.row.Some? && s.row.value.firstDeliveredAt.Some?
  }

  function ReadingGate(w: World, job: nat, delivered: bool, recentlyCreated: bool, ownerNeverAccepted: bool): World {
    if !At(w, job).Waiting? || w.s.alias.None? then w
    else
      var a := w.s.alias.value;
      var passes := a.status.Active? && !Marked(w.s) && !delivered && (recentlyCreated || ownerNeverAccepted);
      Advance(w, job, if passes then Gated(Gate(a.owner, a.chat, a.version)) else Ended)
  }

  function TakingClaim(w: World, job: nat, token: Token, now: int): World {
    if !At(w, job).Gated? then w
    else
      var gate := w.jobs[job].phase.gate;
      var claimed := Claimed(w.s.row, token, gate.chat, gate.version, now);
      if claimed.None? then Advance(w, job, Ended)
      else
        var claims := w.claims + [Claim(job, token, gate.chat, gate.version, now, None, 0, 0, [])];
        Advance(w, job, Holding(gate, |w.claims|, false)).(s := w.s.(row := claimed), claims := claims)
  }

  // The message is authenticated, and a pass is stored on the claim if its token is still current.
  function Authenticating(w: World, job: nat, auth: SenderAuth, storeFails: bool, now: int, fold: Folding): World {
    var phase := At(w, job);
    if !phase.Holding? || phase.authenticated || phase.claim >= |w.claims| then w
    else
      var domain := OneTapDomain(fold, auth, w.jobs[job].headerFrom);
      var claim := w.claims[phase.claim];
      var row := if domain.None? || storeFails then w.s.row else DomainSet(w.s.row, claim.token, domain.value, now);
      Advance(w, job, phase.(authenticated := true)).(
        s := w.s.(row := row), claims := w.claims[phase.claim := claim.(proof := Some(auth))])
  }

  predicate IsStillEligible(s: AliasState, gate: Gate, token: Token, delivered: bool, now: int) {
    && s.alias.Some? && s.alias.value.status.Active? && s.alias.value.owner == gate.owner
    && s.alias.value.chat == gate.chat && s.alias.value.version == gate.version
    && Matches(s.row, token, now) && !Marked(s) && !delivered
  }

  function Revalidating(w: World, job: nat, delivered: bool, now: int, fold: Folding): World {
    var phase := At(w, job);
    if !phase.Holding? || phase.claim >= |w.claims| then w
    else if !IsStillEligible(w.s, phase.gate, w.claims[phase.claim].token, delivered, now) then Advance(w, job, Ended)
    else
      var from := UsableFromDomain(fold, w.jobs[job].headerFrom);
      Advance(w, job, Eligible(phase.claim, if from.Some? && w.s.row.value.domain == from then from else None))
  }

  // The message goes out, or fails to: either way this job sends no other.
  function Sending(w: World, job: nat): World {
    var phase := At(w, job);
    if !phase.Eligible? || phase.claim >= |w.claims| then w
    else
      var claim := w.claims[phase.claim];
      Advance(w, job, Sent).(claims := w.claims[phase.claim := claim.(notices := claim.notices + 1)])
  }

  // The ledger after a tap spent this token.
  function Spend(claims: seq<Claim>, token: Token, outcome: Outcome, alias: Alias): (r: seq<Claim>)
    ensures |r| == |claims|
  {
    seq(|claims|, i requires 0 <= i < |claims| =>
      var c := claims[i];
      if c.token != token then c
      else c.(spent := c.spent + 1,
              added := if outcome.Added? then c.added + [Addition(outcome.domain, alias)] else c.added))
  }

  function Tapping(w: World, token: Token, limitAllows: bool, fault: Fault, now: int, fold: Folding): World {
    var (after, reply) := Tap(w.s, token, now, fold, limitAllows, fault);
    var spent := reply.Committed? && w.s.alias.Some? && Matches(w.s.row, token, now);
    w.(s := after, claims := if spent then Spend(w.claims, token, reply.outcome, w.s.alias.value) else w.claims)
  }

  function WithAlias(w: World, alias: Alias): World {
    w.(s := w.s.(alias := Some(alias)))
  }

  function Next(w: World, a: Action, fold: Folding): World {
    match a
    case Admit(headerFrom) => w.(jobs := w.jobs + [Job(headerFrom, Waiting)])
    case ReadGate(job, delivered, recent, never) => ReadingGate(w, job, delivered, recent, never)
    case TakeClaim(job, token, now) => TakingClaim(w, job, token, now)
    case Authenticate(job, auth, storeFails, now) => Authenticating(w, job, auth, storeFails, now, fold)
    case Revalidate(job, delivered, now) => Revalidating(w, job, delivered, now, fold)
    case Send(job) => Sending(w, job)
    case RecordSent(job, now) =>
      if At(w, job).Sent? then Advance(w, job, Ended).(s := w.s.(row := NoticeSent(w.s.row, now))) else w
    case TapButton(token, limitAllows, fault, now) => Tapping(w, token, limitAllows, fault, now, fold)
    case Move(chat) =>
      if w.s.alias.None? then
        w else WithAlias(w, w.s.alias.value.(chat := chat, version := w.s.alias.value.version + 1))
    case ChangeTopic =>
      if w.s.alias.None? then w else WithAlias(w, w.s.alias.value.(version := w.s.alias.value.version + 1))
    case SetStatus(status) => if w.s.alias.None? then w else WithAlias(w, w.s.alias.value.(status := status))
    case Deliver(now) => w.(s := w.s.(row := FirstDelivered(w.s.row, now)))
    case ClearExpired(now) => w.(s := w.s.(row := ExpiredCleared(w.s.row, now)))
    case EditRules(rules) => w.(s := w.s.(rules := rules))
    case Abandon(job) => if job < |w.jobs| then Advance(w, job, Ended) else w
  }

  // Tokens are random: a new claim's token was never issued before.
  predicate TokenIsFresh(w: World, a: Action) {
    a.TakeClaim? ==> forall c | c in w.claims :: c.token != a.token
  }

  function Run(w: World, actions: seq<Action>, fold: Folding): World
    decreases actions
  {
    if actions == [] then w else Run(Next(w, actions[0], fold), actions[1..], fold)
  }

  predicate FreshTokens(w: World, actions: seq<Action>, fold: Folding)
    decreases actions
  {
    actions == [] || (TokenIsFresh(w, actions[0]) && FreshTokens(Next(w, actions[0], fold), actions[1..], fold))
  }

  function Initial(alias: Alias, rules: set<Domain>): World {
    World(AliasState(Some(alias), None, rules), [], [])
  }

  // ---- The invariant ------------------------------------------------------------------

  // The job that won the claim authenticated this domain.
  ghost predicate ProvenBy(w: World, i: nat, domain: Domain, fold: Folding)
    requires i < |w.claims|
  {
    w.claims[i].proof.Some? && Authenticates(fold, w.claims[i].proof.value, domain)
  }

  ghost predicate RowMatchesLedger(w: World, fold: Folding) {
    var n := |w.claims|;
    && n == (if w.s.row.Some? then w.s.row.value.claimsUsed else 0) && n <= CLAIM_BUDGET
    && (w.s.row.Some? ==>
          var r := w.s.row.value;
          && (r.token.Some? ==> n > 0 && r.token.value == w.claims[n - 1].token && w.claims[n - 1].spent == 0)
          && (r.domain.Some? ==> n > 0 && ProvenBy(w, n - 1, r.domain.value, fold))
          && (if n == 0 then r.lastClaimAt.None? else
                r.lastClaimAt == Some(w.claims[n - 1].at) && r.chatId == Some(w.claims[n - 1].chat)
                && r.routingVersion == Some(w.claims[n - 1].version)))
  }

  ghost predicate ClaimsDistinct(claims: seq<Claim>) {
    && (forall i, j | 0 <= i < j < |claims| :: claims[i].token != claims[j].token && claims[i].job != claims[j].job)
    && (forall i, j | 0 <= i < j < |claims| :: claims[j].at >= claims[i].at + CLAIM_WINDOW)
  }

  ghost predicate ClaimKept(w: World, i: nat, fold: Folding)
    requires i < |w.claims|
  {
    var c := w.claims[i];
    && c.spent <= 1 && |c.added| <= c.spent && c.notices <= 1
    && c.job < |w.jobs| && !At(w, c.job).Waiting? && !At(w, c.job).Gated?
    && (forall x | x in c.added ::
          && ProvenBy(w, i, x.domain, fold)
          && x.alias.status.Active? && x.alias.chat == c.chat && x.alias.version == c.version)
  }

  ghost predicate JobKept(w: World, j: nat, fold: Folding)
    requires j < |w.jobs|
  {
    var p := w.jobs[j].phase;
    (p.Holding? || p.Eligible? ==>
       && p.claim < |w.claims| && w.claims[p.claim].job == j && w.claims[p.claim].notices == 0
       && (p.Holding? && !p.authenticated ==> w.claims[p.claim].proof.None?)
       && (p.Eligible? && p.oneTap.Some? ==> ProvenBy(w, p.claim, p.oneTap.value, fold)))
  }

  ghost predicate Invariant(w: World, fold: Folding) {
    && RowMatchesLedger(w, fold)
    && ClaimsDistinct(w.claims)
    && (forall i | 0 <= i < |w.claims| :: ClaimKept(w, i, fold))
    && (forall j | 0 <= j < |w.jobs| :: JobKept(w, j, fold))
  }

  // ---- Every step keeps it -------------------------------------------------------------

  lemma AdvanceKeeps(w: World, job: nat, phase: Phase, fold: Folding)
    requires Invariant(w, fold) && job < |w.jobs|
    requires phase.Sent? || phase.Ended? || (phase.Gated? && w.jobs[job].phase.Waiting?)
    ensures Invariant(Advance(w, job, phase), fold)
  {
    var v := Advance(w, job, phase);
    forall i | 0 <= i < |v.claims| ensures ClaimKept(v, i, fold) { assert ClaimKept(w, i, fold); }
    forall j | 0 <= j < |v.jobs| ensures JobKept(v, j, fold) { assert JobKept(w, j, fold); }
  }

  // Steps that leave claims and jobs alone need only keep the row in line with the ledger.
  lemma RowKeeps(w: World, s: AliasState, fold: Folding)
    requires Invariant(w, fold) && RowMatchesLedger(w.(s := s), fold)
    ensures Invariant(w.(s := s), fold)
  {
    var v := w.(s := s);
    forall i | 0 <= i < |v.claims| ensures ClaimKept(v, i, fold) { assert ClaimKept(w, i, fold); }
    forall j | 0 <= j < |v.jobs| ensures JobKept(v, j, fold) { assert JobKept(w, j, fold); }
  }

  lemma AdmitKeeps(w: World, headerFrom: Option<string>, fold: Folding)
    requires Invariant(w, fold)
    ensures Invariant(Next(w, Admit(headerFrom), fold), fold)
  {
    var v := Next(w, Admit(headerFrom), fold);
    forall i | 0 <= i < |v.claims| ensures ClaimKept(v, i, fold) { assert ClaimKept(w, i, fold); }
    forall j | 0 <= j < |v.jobs| ensures JobKept(v, j, fold) {
      if j < |w.jobs| { assert JobKept(w, j, fold); }
    }
  }

  lemma TakingClaimKeeps(w: World, job: nat, token: Token, now: int, fold: Folding)
    requires Invariant(w, fold) && TokenIsFresh(w, TakeClaim(job, token, now))
    ensures Invariant(TakingClaim(w, job, token, now), fold)
  {
    if At(w, job).Gated? {
      var gate := w.jobs[job].phase.gate;
      if Claimed(w.s.row, token, gate.chat, gate.version, now).None? {
        AdvanceKeeps(w, job, Ended, fold);
      } else {
        var v, n := TakingClaim(w, job, token, now), |w.claims|;
        forall i | 0 <= i <= n ensures ClaimKept(v, i, fold) {
          if i < n { assert ClaimKept(w, i, fold); }
        }
        forall i, j | 0 <= i < j <= n
          ensures v.claims[i].token != v.claims[j].token && v.claims[i].job != v.claims[j].job
          ensures v.claims[j].at >= v.claims[i].at + CLAIM_WINDOW
        {
          assert ClaimKept(w, i, fold) && w.claims[i] in w.claims;
          if i < n - 1 && j == n { assert w.claims[n - 1].at >= w.claims[i].at; }
        }
        forall j | 0 <= j < |v.jobs| ensures JobKept(v, j, fold) { assert JobKept(w, j, fold); }
      }
    }
  }

  // Changing one claim without touching its identity.
  ghost predicate SameClaim(a: Claim, b: Claim) {
    a.job == b.job && a.token == b.token && a.chat == b.chat && a.version == b.version && a.at == b.at
  }

  lemma AuthenticatingKeeps(w: World, job: nat, auth: SenderAuth, storeFails: bool, now: int, fold: Folding)
    requires Invariant(w, fold)
    ensures Invariant(Authenticating(w, job, auth, storeFails, now, fold), fold)
  {
    var phase := At(w, job);
    if phase.Holding? && !phase.authenticated {
      assert JobKept(w, job, fold);
      var v := Authenticating(w, job, auth, storeFails, now, fold);
      var k := phase.claim;
      assert SameClaim(w.claims[k], v.claims[k]);
      forall i | 0 <= i < |v.claims| ensures ClaimKept(v, i, fold) { assert ClaimKept(w, i, fold); }
      forall j | 0 <= j < |v.jobs| ensures JobKept(v, j, fold) {
        assert JobKept(w, j, fold);
        if v.jobs[j].phase.Eligible? { assert v.jobs[j].phase.claim != k; }
      }
    }
  }

  lemma RevalidatingKeeps(w: World, job: nat, delivered: bool, now: int, fold: Folding)
    requires Invariant(w, fold)
    ensures Invariant(Revalidating(w, job, delivered, now, fold), fold)
  {
    var phase := At(w, job);
    if phase.Holding? {
      assert JobKept(w, job, fold);
      var k := phase.claim;
      if IsStillEligible(w.s, phase.gate, w.claims[k].token, delivered, now) {
        var v := Revalidating(w, job, delivered, now, fold);
        assert k == |w.claims| - 1;
        forall i | 0 <= i < |v.claims| ensures ClaimKept(v, i, fold) { assert ClaimKept(w, i, fold); }
        forall j | 0 <= j < |v.jobs| ensures JobKept(v, j, fold) { assert JobKept(w, j, fold); }
      } else {
        AdvanceKeeps(w, job, Ended, fold);
      }
    }
  }

  lemma SendingKeeps(w: World, job: nat, fold: Folding)
    requires Invariant(w, fold)
    ensures Invariant(Sending(w, job), fold)
  {
    var phase := At(w, job);
    if phase.Eligible? {
      assert JobKept(w, job, fold);
      var v, k := Sending(w, job), phase.claim;
      assert SameClaim(w.claims[k], v.claims[k]);
      forall i | 0 <= i < |v.claims| ensures ClaimKept(v, i, fold) { assert ClaimKept(w, i, fold); }
      forall j | 0 <= j < |v.jobs| ensures JobKept(v, j, fold) {
        assert JobKept(w, j, fold);
        if j != job && (v.jobs[j].phase.Eligible? || v.jobs[j].phase.Holding?) { assert v.jobs[j].phase.claim != k; }
      }
    }
  }

  // With distinct tokens, spending the token of the last claim touches that claim only.
  lemma SpendTouchesLast(claims: seq<Claim>, outcome: Outcome, alias: Alias)
    requires ClaimsDistinct(claims) && claims != []
    ensures var n := |claims| - 1;
            var c := claims[n];
            Spend(claims, c.token, outcome, alias) ==
            claims[n := c.(spent := c.spent + 1,
                           added := if outcome.Added? then c.added + [Addition(outcome.domain, alias)] else c.added)]
  {
  }

  // Giving the last claim a spent token, and a rule that it may add.
  lemma SpendingKeeps(w: World, s: AliasState, last: Claim, fold: Folding)
    requires Invariant(w, fold) && w.claims != []
    requires var n := |w.claims| - 1;
             && SameClaim(w.claims[n], last) && last.proof == w.claims[n].proof && last.notices == w.claims[n].notices
             && ClaimKept(w.(claims := w.claims[n := last]), n, fold)
    requires w.s.row.Some? && s.row == Some(w.s.row.value.(token := None))
    ensures Invariant(World(s, w.jobs, w.claims[|w.claims| - 1 := last]), fold)
  {
    var v := World(s, w.jobs, w.claims[|w.claims| - 1 := last]);
    forall i | 0 <= i < |v.claims| ensures ClaimKept(v, i, fold) { assert ClaimKept(w, i, fold); }
    forall j | 0 <= j < |v.jobs| ensures JobKept(v, j, fold) { assert JobKept(w, j, fold); }
  }

  lemma TappingKeeps(w: World, token: Token, limitAllows: bool, fault: Fault, now: int, fold: Folding)
    requires Invariant(w, fold)
    ensures Invariant(Tapping(w, token, limitAllows, fault, now, fold), fold)
  {
    var (after, reply) := Tap(w.s, token, now, fold, limitAllows, fault);
    TapSpendsOrLeaves(w.s, token, now, fold, limitAllows, fault);
    hide SpendAndAdd;
    if reply.Committed? && w.s.alias.Some? && Matches(w.s.row, token, now) {
      var n, alias := |w.claims| - 1, w.s.alias.value;
      var c := w.claims[n];
      assert ClaimKept(w, n, fold);
      assert c.token == token && c.spent == 0 && c.added == [];
      SpendTouchesLast(w.claims, reply.outcome, alias);
      var last := Spend(w.claims, token, reply.outcome, alias)[n];
      if reply.outcome.Added? {
        ProvenDomainIsPlain(w, fold);
      }
      SpendingKeeps(w, after, last, fold);
    } else {
      RowKeeps(w, after, fold);
    }
  }

  // A stored domain is already normalised, so the rule added is that very domain.
  lemma ProvenDomainIsPlain(w: World, fold: Folding)
    requires RowMatchesLedger(w, fold) && w.s.row.Some? && w.s.row.value.domain.Some?
    ensures DomainRule(fold, w.s.row.value.domain.value) == w.s.row.value.domain
  {
    var proof := w.claims[|w.claims| - 1].proof.value;
    assert UsableFromDomain(fold, proof.headerFromDomain) == w.s.row.value.domain;
  }

  // Steps that touch only the alias, its rules, or timestamps of the row.
  lemma QuietStepKeeps(w: World, a: Action, fold: Folding)
    requires Invariant(w, fold)
    requires a.Move? || a.ChangeTopic? || a.SetStatus? || a.Deliver? || a.ClearExpired? || a.EditRules?
    ensures Invariant(Next(w, a, fold), fold)
  {
    RowKeeps(w, Next(w, a, fold).s, fold);
  }

  lemma RecordingKeeps(w: World, job: nat, now: int, fold: Folding)
    requires Invariant(w, fold)
    ensures Invariant(Next(w, RecordSent(job, now), fold), fold)
  {
    if At(w, job).Sent? {
      AdvanceKeeps(w, job, Ended, fold);
      RowKeeps(Advance(w, job, Ended), w.s.(row := NoticeSent(w.s.row, now)), fold);
    }
  }

  lemma ReadingKeeps(w: World, a: Action, fold: Folding)
    requires Invariant(w, fold) && a.ReadGate?
    ensures Invariant(Next(w, a, fold), fold)
  {
    if At(w, a.job).Waiting? && w.s.alias.Some? {
      AdvanceKeeps(w, a.job, Next(w, a, fold).jobs[a.job].phase, fold);
    }
  }

  lemma NextKeeps(w: World, a: Action, fold: Folding)
    requires Invariant(w, fold) && TokenIsFresh(w, a)
    ensures Invariant(Next(w, a, fold), fold)
  {
    match a
    case Admit(headerFrom) => AdmitKeeps(w, headerFrom, fold);
    case ReadGate(_, _, _, _) => ReadingKeeps(w, a, fold);
    case TakeClaim(job, token, now) => TakingClaimKeeps(w, job, token, now, fold);
    case Authenticate(job, auth, storeFails, now) => AuthenticatingKeeps(w, job, auth, storeFails, now, fold);
    case Revalidate(job, delivered, now) => RevalidatingKeeps(w, job, delivered, now, fold);
    case Send(job) => SendingKeeps(w, job, fold);
    case RecordSent(job, now) => RecordingKeeps(w, job, now, fold);
    case TapButton(token, limitAllows, fault, now) => TappingKeeps(w, token, limitAllows, fault, now, fold);
    case Abandon(job) => if job < |w.jobs| { AdvanceKeeps(w, job, Ended, fold); }
    case _ => QuietStepKeeps(w, a, fold);
  }

  lemma {:induction false} RunKeeps(w: World, actions: seq<Action>, fold: Folding)
    requires Invariant(w, fold) && FreshTokens(w, actions, fold)
    ensures Invariant(Run(w, actions, fold), fold)
    decreases actions
  {
    if actions != [] {
      NextKeeps(w, actions[0], fold);
      RunKeeps(Next(w, actions[0], fold), actions[1..], fold);
    }
  }

  // ---- What every run promises -----------------------------------------------------------

  /**
   * In every interleaving: no token is spent twice; a token adds at most one
   * rule, and that rule is the domain authenticated by the job that won the
   * token's claim, added while the alias was active on the claim's chat and
   * routing version; at most three claims are ever taken, any two at least 24
   * hours apart; and at most one notice is sent per claim, so at most three.
   */
  lemma EveryRun(alias: Alias, rules: set<Domain>, actions: seq<Action>, fold: Folding)
    requires FreshTokens(Initial(alias, rules), actions, fold)
    ensures var claims := Run(Initial(alias, rules), actions, fold).claims;
            && (forall c | c in claims :: c.spent <= 1 && |c.added| <= c.spent && c.notices <= 1)
            && (forall c, x | c in claims && x in c.added ::
                  && c.proof.Some? && Authenticates(fold, c.proof.value, x.domain)
                  && x.alias.status.Active? && x.alias.chat == c.chat && x.alias.version == c.version)
            && |claims| <= 3 && Notices(claims) <= 3
            && (forall i, j | 0 <= i < j < |claims| :: claims[j].at - claims[i].at >= 86_400_000)
  {
    var w := Run(Initial(alias, rules), actions, fold);
    RunKeeps(Initial(alias, rules), actions, fold);
    forall c | c in w.claims
      ensures c.spent <= 1 && |c.added| <= c.spent && c.notices <= 1
      ensures forall x | x in c.added ::
        && c.proof.Some? && Authenticates(fold, c.proof.value, x.domain)
        && x.alias.status.Active? && x.alias.chat == c.chat && x.alias.version == c.version
    {
      var i :| 0 <= i < |w.claims| && w.claims[i] == c;
      assert ClaimKept(w, i, fold);
    }
    NoticesBounded(w.claims);
  }

  function Notices(claims: seq<Claim>): nat {
    if claims == [] then 0 else claims[0].notices + Notices(claims[1..])
  }

  lemma {:induction false} NoticesBounded(claims: seq<Claim>)
    requires forall c | c in claims :: c.notices <= 1
    ensures Notices(claims) <= |claims|
  {
    if claims != [] {
      NoticesBounded(claims[1..]);
    }
  }

  lemma MarkerStays(w: World, action: Action, fold: Folding)
    requires Marked(w.s)
    ensures var v := Next(w, action, fold);
            Marked(v.s) && v.s.row.value.firstDeliveredAt == w.s.row.value.firstDeliveredAt && |v.claims| == |w.claims|
  {
    hide OneTapDomain, UsableFromDomain;
  }

  /**
   * Once the alias has delivered, the marker never moves and no claim is taken
   * any more, whatever runs afterwards.
   */
  lemma {:induction false} MarkerIsFinal(w: World, actions: seq<Action>, fold: Folding)
    requires Marked(w.s)
    ensures var v := Run(w, actions, fold);
            Marked(v.s) && v.s.row.value.firstDeliveredAt == w.s.row.value.firstDeliveredAt && |v.claims| == |w.claims|
    decreases actions
  {
    hide Next, Marked;
    if actions != [] {
      MarkerStays(w, actions[0], fold);
      MarkerIsFinal(Next(w, actions[0], fold), actions[1..], fold);
    }
  }

  // Two claims in a row never come from one job: a job that holds a claim is past claiming.
  lemma OneClaimPerJob(alias: Alias, rules: set<Domain>, actions: seq<Action>, fold: Folding)
    requires FreshTokens(Initial(alias, rules), actions, fold)
    ensures var claims := Run(Initial(alias, rules), actions, fold).claims;
            forall i, j | 0 <= i < j < |claims| :: claims[i].job != claims[j].job
  {
    RunKeeps(Initial(alias, rules), actions, fold);
  }

  /** A notice offers the button only for the domain its own job authenticated. */
  lemma OfferedDomainIsProven(alias: Alias, rules: set<Domain>, actions: seq<Action>, fold: Folding, job: nat)
    requires FreshTokens(Initial(alias, rules), actions, fold)
    requires var p := At(Run(Initial(alias, rules), actions, fold), job); p.Eligible? && p.oneTap.Some?
    ensures var w := Run(Initial(alias, rules), actions, fold);
            var p := w.jobs[job].phase;
            p.claim < |w.claims| && w.claims[p.claim].job == job && ProvenBy(w, p.claim, p.oneTap.value, fold)
  {
    RunKeeps(Initial(alias, rules), actions, fold);
    assert JobKept(Run(Initial(alias, rules), actions, fold), job, fold);
  }

  // ---- The way through --------------------------------------------------------------------

  /** A job passes the gate exactly if its alias is active, has not delivered, and is new or its owner's first. */
  lemma GateExactlyWhen(
    w: World, job: nat, delivered: bool, recentlyCreated: bool, ownerNeverAccepted: bool, fold: Folding)
    requires At(w, job) == Waiting && w.s.alias.Some?
    ensures var v, a := Next(w, ReadGate(job, delivered, recentlyCreated, ownerNeverAccepted), fold), w.s.alias.value;
            v.s == w.s && v.claims == w.claims && |v.jobs| == |w.jobs|
            && At(v, job) ==
               if a.status == Active && !delivered && (w.s.row.None? || w.s.row.value.firstDeliveredAt.None?)
                  && (recentlyCreated || ownerNeverAccepted)
               then Gated(Gate(a.owner, a.chat, a.version)) else Ended
  {
  }

  /**
   * A job that holds a claim goes on exactly if the alias is still active, of
   * the same owner and on the same chat and version, has not delivered, and
   * still has the claim's token; it offers the stored domain if that is the one
   * in its own header From.
   */
  lemma RevalidatedExactlyWhen(w: World, job: nat, delivered: bool, now: int, fold: Folding)
    requires At(w, job).Holding? && At(w, job).claim < |w.claims|
    ensures var v, p := Next(w, Revalidate(job, delivered, now), fold), At(w, job);
            var goesOn :=
              && w.s.alias.Some? && w.s.alias.value == Alias(Active, p.gate.owner, p.gate.chat, p.gate.version)
              && Holds(w.s.row, w.claims[p.claim].token, now)
              && w.s.row.value.firstDeliveredAt.None? && !delivered;
            && v.s == w.s && v.claims == w.claims
            && (if goesOn then At(v, job).Eligible? && At(v, job).claim == p.claim else At(v, job) == Ended)
            && (goesOn ==> forall d ::
                  At(v, job).oneTap == Some(d) <==>
                  w.s.row.value.domain == Some(d) && Names(fold, w.jobs[job].headerFrom, d))
  {
    forall d ensures UsableFromDomain(fold, w.jobs[job].headerFrom) == Some(d)
      <==> Names(fold, w.jobs[job].headerFrom, d)
    {
      OneTapExactlyWhen(fold, SenderAuth(false, None, []), w.jobs[job].headerFrom, d);
    }
  }

  // One job from admission to its notice, then a tap of the button.
  function WayThrough(
    headerFrom: Option<string>, token: Token, auth: SenderAuth, claimedAt: int, tappedAt: int): seq<Action> {
    [Admit(headerFrom), ReadGate(0, false, true, false), TakeClaim(0, token, claimedAt),
     Authenticate(0, auth, false, claimedAt), Revalidate(0, false, claimedAt), Send(0), RecordSent(0, claimedAt),
     TapButton(token, true, NoFault, tappedAt)]
  }

  lemma {:induction false} RunOne(w: World, a: Action, rest: seq<Action>, fold: Folding)
    ensures Run(w, [a] + rest, fold) == Run(Next(w, a, fold), rest, fold)
  {
    assert ([a] + rest)[1..] == rest;
  }

  // The worlds on the way, up to the claim.
  lemma ClaimedOnTheWay(
    alias: Alias, rules: set<Domain>, headerFrom: Option<string>, token: Token, at: int, fold: Folding)
    requires alias.status == Active
    ensures var w, gate := Initial(alias, rules), Gate(alias.owner, alias.chat, alias.version);
            Next(Next(Next(w, Admit(headerFrom), fold), ReadGate(0, false, true, false), fold), TakeClaim(0, token, at),
                 fold) ==
            World(w.s.(row := Claimed(None, token, alias.chat, alias.version, at)),
                  [Job(headerFrom, Holding(gate, 0, false))],
                  [Claim(0, token, alias.chat, alias.version, at, None, 0, 0, [])])
  {
    var w0, gate := Initial(alias, rules), Gate(alias.owner, alias.chat, alias.version);
    var w1 := World(w0.s, [Job(headerFrom, Waiting)], []);
    assert Next(w0, Admit(headerFrom), fold) == w1;
    assert Next(w1, ReadGate(0, false, true, false), fold) == World(w0.s, [Job(headerFrom, Gated(gate))], []);
  }

  // The worlds on the way, up to the notice.
  lemma NoticeSentOnTheWay(
    alias: Alias, rules: set<Domain>, headerFrom: Option<string>, token: Token, auth: SenderAuth, domain: Domain,
    at: int, fold: Folding)
    requires alias.status == Active && OneTapDomain(fold, auth, headerFrom) == Some(domain)
    ensures var w := Run(Initial(alias, rules), WayThrough(headerFrom, token, auth, at, at)[..7], fold);
            && w.s.alias == Some(alias) && w.s.rules == rules
            && w.s.row.Some? && w.s.row.value.token == Some(token) && w.s.row.value.expiresAt == Some(at + 604_800_000)
            && w.s.row.value.domain == Some(domain)
            && w.s.row.value.chatId == Some(alias.chat) && w.s.row.value.routingVersion == Some(alias.version)
            && w.claims == [Claim(0, token, alias.chat, alias.version, at, Some(auth), 0, 1, [])]
  {
    hide OneTapDomain, UsableFromDomain, IsDomain, Run;
    var actions, w0 := WayThrough(headerFrom, token, auth, at, at)[..7], Initial(alias, rules);
    var gate := Gate(alias.owner, alias.chat, alias.version);
    var claim := Claim(0, token, alias.chat, alias.version, at, None, 0, 0, []);
    var row := Claimed(None, token, alias.chat, alias.version, at);
    var proven, stored := [claim.(proof := Some(auth))], Some(row.value.(domain := Some(domain)));
    var w3 := World(w0.s.(row := row), [Job(headerFrom, Holding(gate, 0, false))], [claim]);
    var w4 := World(w0.s.(row := stored), [Job(headerFrom, Holding(gate, 0, true))], proven);
    var from := UsableFromDomain(fold, headerFrom);
    var offered := if from.Some? && from == Some(domain) then from else None;
    var w5 := w4.(jobs := [Job(headerFrom, Eligible(0, offered))]);
    var w6 := World(w5.s, [Job(headerFrom, Sent)], [proven[0].(notices := 1)]);
    ClaimedOnTheWay(alias, rules, headerFrom, token, at, fold);
    assert Next(w3, actions[3], fold) == w4;
    assert Next(w4, actions[4], fold) == w5;
    assert Next(w5, actions[5], fold) == w6;
    SevenSteps(w0, actions, fold);
  }

  lemma SevenSteps(w: World, a: seq<Action>, fold: Folding)
    requires |a| == 7
    ensures Run(w, a, fold) ==
            Next(Next(Next(Next(Next(Next(Next(w, a[0], fold), a[1], fold), a[2], fold), a[3], fold), a[4], fold), a[5],
                      fold), a[6], fold)
  {
    hide Next;
    var w1 := Next(w, a[0], fold);
    var w2 := Next(w1, a[1], fold);
    var w3 := Next(w2, a[2], fold);
    var w4 := Next(w3, a[3], fold);
    var w5 := Next(w4, a[4], fold);
    var w6 := Next(w5, a[5], fold);
    assert a == [a[0]] + a[1..] && a[1..] == [a[1]] + a[2..] && a[2..] == [a[2]] + a[3..] && a[3..] == [a[3]] + a[4..];
    assert a[4..] == [a[4]] + a[5..] && a[5..] == [a[5]] + a[6..] && a[6..] == [a[6]] + [];
    RunOne(w, a[0], a[1..], fold);
    RunOne(w1, a[1], a[2..], fold);
    RunOne(w2, a[2], a[3..], fold);
    RunOne(w3, a[3], a[4..], fold);
    RunOne(w4, a[4], a[5..], fold);
    RunOne(w5, a[5], a[6..], fold);
    RunOne(w6, a[6], [], fold);
  }

  lemma {:induction false} RunConcat(w: World, a: seq<Action>, b: seq<Action>, fold: Folding)
    ensures Run(w, a + b, fold) == Run(Run(w, a, fold), b, fold)
    decreases a
  {
    hide Next;
    if a == [] {
      assert a + b == b;
    } else {
      assert (a + b)[0] == a[0] && (a + b)[1..] == a[1..] + b;
      RunConcat(Next(w, a[0], fold), a[1..], b, fold);
    }
  }

  /**
   * Nothing holds up an honest sender: for every active alias without a row
   * and every authenticated domain, a job that runs undisturbed sends a notice,
   * and a tap within seven days adds the domain.
   */
  lemma UndisturbedTapAdds(
    alias: Alias, rules: set<Domain>, headerFrom: Option<string>, token: Token, auth: SenderAuth, domain: Domain,
    claimedAt: int, tappedAt: int, fold: Folding)
    requires alias.status == Active && tappedAt < claimedAt + 604_800_000
    requires OneTapDomain(fold, auth, headerFrom) == Some(domain)
    ensures var w := Run(Initial(alias, rules), WayThrough(headerFrom, token, auth, claimedAt, tappedAt), fold);
            && w.s.rules == rules + {domain} && w.s.alias == Some(alias)
            && |w.claims| == 1 && w.claims[0].notices == 1 && w.claims[0].spent == 1
  {
    hide OneTapDomain, UsableFromDomain, Next, Run, SpendAndAdd;
    var actions := WayThrough(headerFrom, token, auth, claimedAt, tappedAt);
    var tap := TapButton(token, true, NoFault, tappedAt);
    NoticeSentOnTheWay(alias, rules, headerFrom, token, auth, domain, claimedAt, fold);
    assert actions[..7] == WayThrough(headerFrom, token, auth, claimedAt, claimedAt)[..7];
    assert actions == actions[..7] + [tap];
    RunConcat(Initial(alias, rules), actions[..7], [tap], fold);
    var w := Run(Initial(alias, rules), actions[..7], fold);
    RunOne(w, tap, [], fold);
    assert [tap] + [] == [tap];
    NothingLeftToRun(Next(w, tap, fold), fold);
    OfferedTapAdds(w, token, tappedAt, domain, auth, headerFrom, fold);
  }

  lemma NothingLeftToRun(w: World, fold: Folding)
    ensures Run(w, [], fold) == w
  {
  }

  lemma OfferedTapAdds(
    w: World, token: Token, now: int, domain: Domain, auth: SenderAuth, headerFrom: Option<string>, fold: Folding)
    requires MayAdd(w.s, token, now) && w.s.row.value.domain == Some(domain)
    requires OneTapDomain(fold, auth, headerFrom) == Some(domain)
    requires |w.claims| == 1 && w.claims[0].token == token && w.claims[0].spent == 0
    ensures var v := Next(w, TapButton(token, true, NoFault, now), fold);
            && v.s.rules == w.s.rules + {domain} && v.s.alias == w.s.alias
            && |v.claims| == 1 && v.claims[0].notices == w.claims[0].notices && v.claims[0].spent == 1
  {
    TapAnswersExactlyWhen(w.s, token, now, fold, true, NoFault);
    TapSpendsOrLeaves(w.s, token, now, fold, true, NoFault);
    hide SpendAndAdd;
    assert DomainRule(fold, domain) == Some(domain);
    assert StoredRule(w.s, fold) == Some(domain);
  }
}
