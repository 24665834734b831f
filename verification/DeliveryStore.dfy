/**
 * The tables behind deliveries and quotas, and the routines that work on
 * them step by step. Each does to a log exactly what the function of
 * `Delivery` of the same purpose says, and to the counters what `Quota` says.
 */
module DeliveryStore {
  import opened Delivery
  import opened Quota

  type LogId = string

  datatype Row = Row(log: Log, user: UserId, month: Month)

  class Store {
    var rows: map<LogId, Row>
    var usage: map<(UserId, Month), Usage>
    var storage: map<UserId, nat>

    constructor ()
      ensures rows == map[] && usage == map[] && storage == map[]
    {
      rows, usage, storage := map[], map[], map[];
    }

    // Only the log of `id` may differ.
    twostate predicate OnlyLog(id: LogId)
      requires id in rows
      reads this
    {
      id in old(rows) && rows == old(rows)[id := old(rows)[id].(log := rows[id].log)]
    }

    // ---- Counters -------------------------------------------------------------------

    method IncrementUserUsageMonth(user: UserId, month: Month, delivered: nat, rejected: nat)
      modifies this`usage
      ensures usage == Incremented(old(usage), user, month, delivered, rejected)
    {
      if (user, month) in usage {
        var u := usage[(user, month)];
        usage := usage[(user, month) := Usage(u.delivered + delivered, u.rejected + rejected)];
      } else {
        usage := usage[(user, month) := Usage(delivered, rejected)];
      }
    }

    method DecrementUserUsageMonth(user: UserId, month: Month, delivered: nat) returns (found: bool)
      modifies this`usage
      ensures usage == Decremented(old(usage), user, month, delivered) && found == ((user, month) in old(usage))
    {
      found := (user, month) in usage;
      if found {
        var u := usage[(user, month)];
        usage := usage[(user, month) :=
                       u.(delivered := if u.delivered >= delivered then u.delivered - delivered else 0)];
      }
    }

    // ---- Acceptance -----------------------------------------------------------------

    method CheckInboundLimitForPlan(inbound: InboundPlan, m: Inbound) returns (limit: Option<LimitCode>)
      ensures limit == CheckInboundLimit(Db(usage, storage, []), inbound, m)
    {
      if !inbound.hosted {
        return None;
      }
      if !inbound.known {
        return Some(SubscriptionInactive);
      }
      if m.rawBytes > inbound.plan.maxMessageBytes {
        return Some(MessageSizeLimit);
      }
      var delta := m.rawBytes + m.attachmentBytes;
      if delta > 0 {
        var current := if m.user in storage then storage[m.user] else 0;
        if current + delta > inbound.plan.storageBytes {
          return Some(StorageLimit);
        }
      }
      var delivered := if (m.user, m.month) in usage then usage[(m.user, m.month)].delivered else 0;
      if delivered >= inbound.plan.deliveredEmailsMonth {
        return Some(MonthlyEmailLimit);
      }
      return None;
    }

    /** The locked decision: limits, duplicates, hourly cap, then log, charge and storage together. */
    method QueueAllowedInboundEmail(id: LogId, inbound: InboundPlan, m: Inbound) returns (verdict: Verdict)
      requires id !in rows
      modifies this
      ensures var (after, v) := Queue(Db(old(usage), old(storage), []), inbound, m);
              && verdict == v && usage == after.usage && storage == after.storage
              && rows == if v.Queued? then old(rows)[id := Row(NewLog().log, m.user, m.month)] else old(rows)
    {
      var limit := CheckInboundLimitForPlan(inbound, m);
      if limit.Some? {
        if CountsAsLostMail(limit.value) {
          IncrementUserUsageMonth(m.user, m.month, 0, 1);
        }
        return OverLimit(limit.value);
      }
      if m.duplicate {
        return Duplicate;
      }
      if m.recentForAlias >= inbound.plan.aliasEmailsPerHour {
        return RateLimited;
      }
      if m.raced {
        return Duplicate;
      }
      rows := rows[id := Row(Log(Received, []), m.user, m.month)];
      IncrementUserUsageMonth(m.user, m.month, 1, 0);
      var stored := if m.user in storage then storage[m.user] else 0;
      storage := storage[m.user := stored + m.rawBytes + m.attachmentBytes];
      return Queued;
    }

    // ---- Attempts and status -----------------------------------------------------------

    method InsertDeliveryAttempt(id: LogId, a: Attempt)
      requires id in rows
      modifies this`rows
      ensures id in rows && OnlyLog(id)
      ensures rows[id].log == old(rows)[id].log.(attempts := InsertAttempt(old(rows)[id].log.attempts, a))
    {
      var row := rows[id];
      if !HasAttempt(row.log.attempts, a.no) {
        rows := rows[id := row.(log := row.log.(attempts := row.log.attempts + [a]))];
      }
    }

    method CountCountedFailedAttemptsByLog(id: LogId) returns (n: nat)
      requires id in rows
      ensures n == CountedFailures(rows[id].log.attempts)
    {
      var attempts := rows[id].log.attempts;
      n := 0;
      for i := 0 to |attempts|
        invariant n == CountedFailures(attempts[..i])
      {
        assert attempts[..i + 1][..i] == attempts[..i];
        if CountsAsFailure(attempts[i]) {
          n := n + 1;
        }
      }
      assert attempts[..|attempts|] == attempts;
    }

    method UpdateDeliveryLogStatus(id: LogId, status: Status, w: Write) returns (confirmed: bool)
      requires id in rows
      modifies this`rows
      ensures id in rows && OnlyLog(id) && rows[id].log == SetStatus(old(rows)[id].log, status, w)
              && confirmed == w.Done?
    {
      if !w.Lost? {
        rows := rows[id := rows[id].(log := rows[id].log.(status := status))];
      }
      return w.Done?;
    }

    method ClaimDeliveryLogForRetry(id: LogId) returns (claimed: bool)
      requires id in rows
      modifies this`rows
      ensures id in rows && OnlyLog(id) && claimed == Claimable(old(rows)[id].log.status)
      ensures rows[id].log == if claimed then old(rows)[id].log.(status := Retrying) else old(rows)[id].log
    {
      claimed := Claimable(rows[id].log.status);
      if claimed {
        var _ := UpdateDeliveryLogStatus(id, Retrying, Done);
      }
    }

    // At most three tries of one transaction; the first confirmed one ends them.
    method PersistOutcome(id: LogId, a: Attempt, status: Status, tries: Tries) returns (confirmed: bool)
      requires id in rows
      modifies this`rows
      ensures id in rows && OnlyLog(id)
      ensures (rows[id].log, confirmed) == Persist(old(rows)[id].log, a, status, tries)
    {
      for attempt := 0 to PERSIST_TRIES
        invariant id in rows && OnlyLog(id)
        invariant Persist(rows[id].log, a, status, tries[attempt..]) == Persist(old(rows)[id].log, a, status, tries)
      {
        assert tries[attempt..][0] == tries[attempt] && tries[attempt..][1..] == tries[attempt + 1..];
        if !tries[attempt].Lost? {
          InsertDeliveryAttempt(id, a);
          var _ := UpdateDeliveryLogStatus(id, status, Done);
        }
        if tries[attempt].Done? {
          return true;
        }
      }
      return false;
    }

    // Best effort: a lost write or a missing counter row is only logged.
    method RefundAcceptedEmail(id: LogId, w: Write)
      requires id in rows
      modifies this`usage
      ensures usage == if w.Lost? then old(usage) else Decremented(old(usage), rows[id].user, rows[id].month, 1)
    {
      if !w.Lost? {
        var _ := DecrementUserUsageMonth(rows[id].user, rows[id].month, 1);
      }
    }

    // ---- Deliveries -----------------------------------------------------------------------

    // The log ends as `e` says, and the counter moves exactly with its refund.
    twostate predicate EndsAs(id: LogId, e: Ended)
      requires id in rows
      reads this
    {
      && OnlyLog(id) && rows[id].log == e.log && storage == old(storage)
      && usage == if e.refunded then Decremented(old(usage), rows[id].user, rows[id].month, 1) else old(usage)
    }

    method CloseLog(id: LogId, c: Circumstances)
      requires id in rows
      modifies this`rows, this`usage
      ensures id in rows && EndsAs(id, ClosePermanentlyFailed(old(rows)[id].log, c))
    {
      var closed := UpdateDeliveryLogStatus(id, PermanentlyFailed, c.close);
      if !closed {
        var _ := UpdateDeliveryLogStatus(id, Failed, c.reset);
        return;
      }
      RefundAcceptedEmail(id, c.refund);
    }

    method FinishAttempt(id: LogId, no: nat, status: Status, c: Circumstances)
      requires id in rows
      modifies this`rows, this`usage
      ensures id in rows && EndsAs(id, AfterSend(old(rows)[id].log, no, status, c))
    {
      var confirmed := PersistOutcome(id, Outcome(no, c.send), status, c.tries);
      if !confirmed {
        var _ := UpdateDeliveryLogStatus(id, Failed, c.reset);
        return;
      }
      if status.PermanentlyFailed? {
        RefundAcceptedEmail(id, c.refund);
      } else if c.send.Accepted? && c.migratesLate {
        var _ := UpdateDeliveryLogStatus(id, Failed, c.abort);
      }
    }

    /** A retry of a log that was just claimed. */
    method RetryDelivery(id: LogId, c: Circumstances)
      requires id in rows
      modifies this`rows, this`usage
      ensures id in rows && EndsAs(id, Retry(old(rows)[id].log, c))
    {
      if !c.rawAvailable {
        CloseLog(id, c);
        return;
      }
      var attempts := |rows[id].log.attempts|;
      var countedFailures := CountCountedFailedAttemptsByLog(id);
      if countedFailures >= MAX_RETRIES || !c.routeAvailable {
        CloseLog(id, c);
        return;
      }
      if !c.prepared {
        var _ := UpdateDeliveryLogStatus(id, Failed, c.reset);
        return;
      }
      FinishAttempt(id, attempts + 1, StatusAfterRetry(countedFailures, c.send), c);
    }

    /** The first delivery of an accepted log. */
    method DeliverQueuedEmail(id: LogId, c: Circumstances)
      requires id in rows
      modifies this`rows, this`usage
      ensures id in rows && EndsAs(id, Deliver(old(rows)[id].log, c))
    {
      if !c.prepared {
        var _ := UpdateDeliveryLogStatus(id, Failed, c.reset);
        return;
      }
      if !c.aliasAvailable {
        return;
      }
      var _ := UpdateDeliveryLogStatus(id, Processing, Done);
      if c.interrupted {
        var _ := UpdateDeliveryLogStatus(id, Failed, c.reset);
        return;
      }
      if !c.routeAvailable {
        return;
      }
      var status := if c.send.Accepted? then Delivered else Failed;
      if c.send.Rejected? && RetryDisposition(c.send.errorClass).FailPermanently? {
        status := PermanentlyFailed;
      }
      FinishAttempt(id, 1, status, c);
    }

    /** One cycle of the retry worker over the logs it listed: claim, then retry, one after the other. */
    method RunRetryWorker(ids: seq<LogId>, circumstances: seq<Circumstances>)
      requires |ids| == |circumstances| && forall id | id in ids :: id in rows
      requires forall i, j | 0 <= i < j < |ids| :: ids[i] != ids[j]
      modifies this`rows, this`usage
      ensures rows.Keys == old(rows).Keys
      ensures forall i | 0 <= i < |ids| ::
        rows[ids[i]].log == var log := old(rows)[ids[i]].log;
                            if Claimable(log.status) then Retry(log.(status := Retrying), circumstances[i]).log else log
      ensures forall id | id in rows && id !in ids :: rows[id] == old(rows)[id]
    {
      for k := 0 to |ids|
        invariant rows.Keys == old(rows).Keys
        invariant forall i | 0 <= i < k ::
          rows[ids[i]].log == var log := old(rows)[ids[i]].log;
                              if Claimable(log.status) then Retry(log.(status := Retrying), circumstances[i]).log
                              else log
        invariant forall i | k <= i < |ids| :: rows[ids[i]] == old(rows)[ids[i]]
        invariant forall id | id in rows && id !in ids :: rows[id] == old(rows)[id]
      {
        var id := ids[k];
        var claimed := ClaimDeliveryLogForRetry(id);
        if claimed {
          RetryDelivery(id, circumstances[k]);
        }
      }
    }
  }
}
