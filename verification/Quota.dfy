/**
 * Charging accepted mail and giving the charge back: the acceptance decision
 * under the owner's lock, the monthly counters, and their conservation over
 * every run of acceptances, deliveries and refunds.
 */
module Quota {
  import opened Delivery

  type UserId = int
  type Month = string

  datatype Plan = Plan(maxMessageBytes: nat, storageBytes: nat, deliveredEmailsMonth: nat, aliasEmailsPerHour: nat)

  /** The plan that governs one decision. Self-hosted mode has no quota; a missing owner is refused. */
  datatype InboundPlan = InboundPlan(hosted: bool, known: bool, plan: Plan)

  datatype Usage = Usage(delivered: nat, rejected: nat)

  datatype LimitCode = SubscriptionInactive | MessageSizeLimit | StorageLimit | MonthlyEmailLimit

  /** One accepted email: its log, and whose month it was charged to. */
  datatype Entry = Entry(track: Track, user: UserId, month: Month)

  datatype Db = Db(usage: map<(UserId, Month), Usage>, storage: map<UserId, nat>, entries: seq<Entry>)

  // ---- Counters ---------------------------------------------------------------------

  function DeliveredCount(db: Db, user: UserId, month: Month): nat {
    if (user, month) in db.usage then db.usage[(user, month)].delivered else 0
  }

  function StoredBytes(db: Db, user: UserId): nat {
    if user in db.storage then db.storage[user] else 0
  }

  function Incremented(usage: map<(UserId, Month), Usage>, user: UserId, month: Month, delivered: nat, rejected: nat):
    map<(UserId, Month), Usage>
  {
    var before := if (user, month) in usage then usage[(user, month)] else Usage(0, 0);
    usage[(user, month) := Usage(before.delivered + delivered, before.rejected + rejected)]
  }

  function Minus(a: nat, b: nat): nat {
    if a >= b then a - b else 0
  }

  // Only an existing row is decremented, and never below zero.
  function Decremented(usage: map<(UserId, Month), Usage>, user: UserId, month: Month, delivered: nat):
    map<(UserId, Month), Usage>
  {
    if (user, month) !in usage then usage
    else usage[(user, month) := usage[(user, month)].(delivered := Minus(usage[(user, month)].delivered, delivered))]
  }

  // ---- Acceptance --------------------------------------------------------------------

  /** An email that passed the allow rules, and what the database says of it. */
  datatype Inbound = Inbound(
    user: UserId, month: Month, rawBytes: nat, attachmentBytes: nat, duplicate: bool, recentForAlias: nat, raced: bool)

  datatype Verdict = Queued | Duplicate | RateLimited | OverLimit(code: LimitCode)

  function CheckInboundLimit(db: Db, inbound: InboundPlan, m: Inbound): Option<LimitCode> {
    var delta := m.rawBytes + m.attachmentBytes;
    if !inbound.hosted then None
    else if !inbound.known then Some(SubscriptionInactive)
    else if m.rawBytes > inbound.plan.maxMessageBytes then Some(MessageSizeLimit)
    else if delta > 0 && StoredBytes(db, m.user) + delta > inbound.plan.storageBytes then Some(StorageLimit)
    else if DeliveredCount(db, m.user, m.month) >= inbound.plan.deliveredEmailsMonth then Some(MonthlyEmailLimit)
    else None
  }

  predicate CountsAsLostMail(code: LimitCode) {
    code.MonthlyEmailLimit? || code.StorageLimit? || code.SubscriptionInactive?
  }

  function Queue(db: Db, inbound: InboundPlan, m: Inbound): (Db, Verdict) {
    var limit := CheckInboundLimit(db, inbound, m);
    if limit.Some? then
      (if CountsAsLostMail(limit.value) then db.(usage := Incremented(db.usage, m.user, m.month, 0, 1)) else db,
       OverLimit(limit.value))
    else if m.duplicate then (db, Duplicate)
    else if m.recentForAlias >= inbound.plan.aliasEmailsPerHour then (db, RateLimited)
    else if m.raced then (db, Duplicate)
    else
      (Db(Incremented(db.usage, m.user, m.month, 1, 0),
          db.storage[m.user := StoredBytes(db, m.user) + m.rawBytes + m.attachmentBytes],
          db.entries + [Entry(NewLog(), m.user, m.month)]), Queued)
  }

  function RejectedCount(db: Db, user: UserId, month: Month): nat {
    if (user, month) in db.usage then db.usage[(user, month)].rejected else 0
  }

  /**
   * When mail is queued, and what that changes: exactly its log, one delivered
   * email of its user's month, and its bytes. Mail that is not queued changes
   * no log, no charge and no storage; it is counted as lost exactly for the
   * limits that are the user's to lift.
   */
  lemma QueuedExactlyWhen(db: Db, inbound: InboundPlan, m: Inbound)
    ensures var (after, verdict) := Queue(db, inbound, m);
            var bytes, plan := m.rawBytes + m.attachmentBytes, inbound.plan;
            var full := bytes > 0 && StoredBytes(db, m.user) + bytes > plan.storageBytes;
            var within := m.rawBytes <= plan.maxMessageBytes && !full;
            var left := DeliveredCount(db, m.user, m.month) < plan.deliveredEmailsMonth;
            && (verdict == OverLimit(SubscriptionInactive) <==> inbound.hosted && !inbound.known)
            && (verdict == OverLimit(MessageSizeLimit) <==>
                inbound.hosted && inbound.known && m.rawBytes > plan.maxMessageBytes)
            && (verdict == OverLimit(StorageLimit) <==>
                inbound.hosted && inbound.known && m.rawBytes <= plan.maxMessageBytes && full)
            && (verdict == OverLimit(MonthlyEmailLimit) <==> inbound.hosted && inbound.known && within && !left)
            && (verdict == Queued <==>
                && (inbound.hosted ==> inbound.known && within && left)
                && !m.duplicate && !m.raced && m.recentForAlias < plan.aliasEmailsPerHour)
            && (verdict == RateLimited <==>
                && (inbound.hosted ==> inbound.known && within && left)
                && !m.duplicate && m.recentForAlias >= plan.aliasEmailsPerHour)
            && after.entries == (if verdict == Queued then db.entries + [Entry(NewLog(), m.user, m.month)]
                                 else db.entries)
            && (forall u, t :: DeliveredCount(after, u, t) ==
                  DeliveredCount(db, u, t) + if verdict == Queued && u == m.user && t == m.month then 1 else 0)
            && (forall u :: StoredBytes(after, u) ==
                  StoredBytes(db, u) + if verdict == Queued && u == m.user then bytes else 0)
            && (forall u, t :: RejectedCount(after, u, t) ==
                  RejectedCount(db, u, t) +
                  if u == m.user && t == m.month && verdict in {OverLimit(SubscriptionInactive),
                     OverLimit(StorageLimit), OverLimit(MonthlyEmailLimit)} then 1 else 0)
  {
  }

  // ---- Runs ---------------------------------------------------------------------------

  datatype Step =
    | Arrive(inbound: InboundPlan, m: Inbound)
    | Work(entry: nat, action: Action)
    | ReleaseStorage(user: UserId, bytes: nat)

  // Give the charge back to the month the email was charged to.
  function Refund(db: Db, user: UserId, month: Month): Db {
    db.(usage := Decremented(db.usage, user, month, 1))
  }

  function Next(db: Db, s: Step): Db {
    match s
    case Arrive(inbound, m) => Queue(db, inbound, m).0
    case Work(i, action) =>
      if i >= |db.entries| then db
      else
        var e := db.entries[i];
        var track := Delivery.Next(e.track, action);
        var worked := db.(entries := db.entries[i := e.(track := track)]);
        if track.refunds > e.track.refunds then Refund(worked, e.user, e.month) else worked
    case ReleaseStorage(user, bytes) =>
      if user in db.storage then db.(storage := db.storage[user := Minus(db.storage[user], bytes)]) else db
  }

  function Run(db: Db, steps: seq<Step>): Db
    decreases steps
  {
    if steps == [] then db else Run(Next(db, steps[0]), steps[1..])
  }

  function Empty(): Db {
    Db(map[], map[], [])
  }

  // Accepted emails of a user's month whose charge still stands.
  function Charged(entries: seq<Entry>, user: UserId, month: Month): nat {
    if entries == [] then 0
    else
      var e := entries[|entries| - 1];
      Charged(entries[..|entries| - 1], user, month)
        + if e.user == user && e.month == month && e.track.refunds == 0 then 1 else 0
  }

  function Accepted(entries: seq<Entry>, user: UserId, month: Month): nat {
    if entries == [] then 0
    else
      var e := entries[|entries| - 1];
      Accepted(entries[..|entries| - 1], user, month) + if e.user == user && e.month == month then 1 else 0
  }

  function Refunded(entries: seq<Entry>, user: UserId, month: Month): nat {
    if entries == [] then 0
    else
      var e := entries[|entries| - 1];
      Refunded(entries[..|entries| - 1], user, month)
        + if e.user == user && e.month == month && e.track.refunds > 0 then 1 else 0
  }

  lemma {:induction false} ChargedIsDifference(entries: seq<Entry>, user: UserId, month: Month)
    ensures Charged(entries, user, month) == Accepted(entries, user, month) - Refunded(entries, user, month)
  {
    if entries != [] {
      ChargedIsDifference(entries[..|entries| - 1], user, month);
    }
  }

  lemma ChargedAppend(entries: seq<Entry>, e: Entry, user: UserId, month: Month)
    ensures Charged(entries + [e], user, month) ==
            Charged(entries, user, month) + if e.user == user && e.month == month && e.track.refunds == 0 then 1 else 0
  {
    assert (entries + [e])[..|entries|] == entries;
  }

  // One entry is replaced by one of the same user and month.
  lemma {:induction false} ChargedUpdate(entries: seq<Entry>, i: nat, e: Entry, user: UserId, month: Month)
    requires i < |entries| && e.user == entries[i].user && e.month == entries[i].month
    ensures Charged(entries[i := e], user, month) + (if Counts(entries[i], user, month) then 1 else 0) ==
            Charged(entries, user, month) + (if Counts(e, user, month) then 1 else 0)
    decreases |entries|
  {
    var n := |entries| - 1;
    if i < n {
      assert entries[i := e][..n] == entries[..n][i := e];
      ChargedUpdate(entries[..n], i, e, user, month);
    } else {
      assert entries[i := e][..n] == entries[..n];
    }
  }

  predicate Counts(e: Entry, user: UserId, month: Month) {
    e.user == user && e.month == month && e.track.refunds == 0
  }

  ghost predicate Conserved(db: Db) {
    && (forall i | 0 <= i < |db.entries| :: Delivery.Invariant(db.entries[i].track))
    && (forall user, month :: DeliveredCount(db, user, month) == Charged(db.entries, user, month))
  }

  lemma QueueConserves(db: Db, inbound: InboundPlan, m: Inbound)
    requires Conserved(db)
    ensures Conserved(Queue(db, inbound, m).0)
  {
    var (after, verdict) := Queue(db, inbound, m);
    forall user, month ensures DeliveredCount(after, user, month) == Charged(after.entries, user, month) {
      if verdict.Queued? {
        ChargedAppend(db.entries, Entry(NewLog(), m.user, m.month), user, month);
      }
    }
  }

  // Work on one email changes its user's month by exactly the refund it makes, and the zero clamp never bites.
  lemma WorkConserves(db: Db, i: nat, action: Action)
    requires Conserved(db) && i < |db.entries|
    ensures Conserved(Next(db, Work(i, action)))
    ensures var e := db.entries[i];
            Delivery.Next(e.track, action).refunds > e.track.refunds ==> DeliveredCount(db, e.user, e.month) >= 1
  {
    var e := db.entries[i];
    var track := Delivery.Next(e.track, action);
    var f := e.(track := track);
    NextKeeps(e.track, action);
    RefundsGrow(e.track, action);
    var after := Next(db, Work(i, action));
    assert after.entries == db.entries[i := f];
    ChargedUpdate(db.entries, i, f, e.user, e.month);
    forall user, month ensures DeliveredCount(after, user, month) == Charged(after.entries, user, month) {
      ChargedUpdate(db.entries, i, f, user, month);
    }
  }

  lemma RefundsGrow(t: Track, action: Action)
    ensures t.refunds <= Delivery.Next(t, action).refunds <= t.refunds + 1
  {
  }

  lemma {:induction false} RunConserves(db: Db, steps: seq<Step>)
    requires Conserved(db)
    ensures Conserved(Run(db, steps))
    decreases steps
  {
    if steps != [] {
      match steps[0] {
        case Arrive(inbound, m) => QueueConserves(db, inbound, m);
        case Work(i, action) => if i < |db.entries| { WorkConserves(db, i, action); }
        case ReleaseStorage(_, _) =>
      }
      RunConserves(Next(db, steps[0]), steps[1..]);
    }
  }

  /**
   * For every user and month and every run: the delivered count is the number
   * of accepted emails less the number of refunded ones; each email is refunded
   * at most once, and only after it was closed as permanently failed.
   */
  lemma UsageIsConserved(steps: seq<Step>, user: UserId, month: Month)
    ensures var db := Run(Empty(), steps);
            && DeliveredCount(db, user, month) == Accepted(db.entries, user, month) - Refunded(db.entries, user, month)
            && forall e | e in db.entries ::
                 e.track.refunds <= 1 && (e.track.refunds == 1 ==> e.track.log.status.PermanentlyFailed?)
  {
    var db := Run(Empty(), steps);
    RunConserves(Empty(), steps);
    ChargedIsDifference(db.entries, user, month);
  }

  /** A refund always finds a charge to give back: the counter was at least one. */
  lemma RefundNeverClamps(steps: seq<Step>, i: nat, action: Action)
    requires var db := Run(Empty(), steps);
             i < |db.entries| && Delivery.Next(db.entries[i].track, action).refunds > db.entries[i].track.refunds
    ensures var db := Run(Empty(), steps); DeliveredCount(db, db.entries[i].user, db.entries[i].month) >= 1
  {
    RunConserves(Empty(), steps);
    WorkConserves(Run(Empty(), steps), i, action);
  }

  // ---- Limits -------------------------------------------------------------------------

  // Every decision about this user's mail is made under this plan.
  predicate FixedPlan(steps: seq<Step>, user: UserId, plan: Plan) {
    forall s | s in steps && s.Arrive? && s.m.user == user :: s.inbound == InboundPlan(true, true, plan)
  }

  lemma {:induction false} RunStaysWithin(db: Db, steps: seq<Step>, user: UserId, month: Month, plan: Plan)
    requires FixedPlan(steps, user, plan)
    requires DeliveredCount(db, user, month) <= plan.deliveredEmailsMonth && StoredBytes(db, user) <= plan.storageBytes
    ensures DeliveredCount(Run(db, steps), user, month) <= plan.deliveredEmailsMonth
    ensures StoredBytes(Run(db, steps), user) <= plan.storageBytes
    decreases steps
  {
    if steps != [] {
      var s := steps[0];
      assert s in steps;
      assert DeliveredCount(Next(db, s), user, month) <= plan.deliveredEmailsMonth;
      assert StoredBytes(Next(db, s), user) <= plan.storageBytes;
      RunStaysWithin(Next(db, s), steps[1..], user, month, plan);
    }
  }

  /**
   * With a fixed hosted plan, acceptance never takes a user's delivered count
   * or stored bytes past the plan's limits, in any run.
   */
  lemma LimitsHold(steps: seq<Step>, user: UserId, month: Month, plan: Plan)
    requires FixedPlan(steps, user, plan)
    ensures DeliveredCount(Run(Empty(), steps), user, month) <= plan.deliveredEmailsMonth
    ensures StoredBytes(Run(Empty(), steps), user) <= plan.storageBytes
  {
    RunStaysWithin(Empty(), steps, user, month, plan);
  }
}
