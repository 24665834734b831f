/**
 * The life of one delivery log: the first delivery, the retries, the retry
 * budget and the refund. What the outside decides (send results, lost or
 * unconfirmed database writes) is an argument; a crash is a run in which every
 * later write is lost.
 */
module Delivery {
  datatype Option<+T> = None | Some(value: T)

  datatype ErrorClass =
    | FloodWait | Forbidden | ChatNotFound | Migrated | BadRequest | Timeout | Network | Server | OtherClass
      | UnknownClass

  datatype Disposition = FailPermanently | RetryUncounted | RetryCounted

  predicate IsUncounted(c: ErrorClass) {
    c.FloodWait? || c.Timeout? || c.Network? || c.Server? || c.Migrated?
  }

  function RetryDisposition(c: ErrorClass): Disposition {
    if c.Forbidden? || c.ChatNotFound? then FailPermanently
    else if IsUncounted(c) then RetryUncounted
    else RetryCounted
  }

  datatype Status = Received | Processing | Delivered | Failed | Retrying | PermanentlyFailed

  predicate IsFinal(s: Status) {
    s.Delivered? || s.PermanentlyFailed?
  }

  /** A row of `delivery_attempts`. The class is empty on success, and on failures recorded before it existed. */
  datatype Attempt = Attempt(no: nat, succeeded: bool, errorClass: Option<ErrorClass>)

  datatype Log = Log(status: Status, attempts: seq<Attempt>)

  const MAX_RETRIES := 3
  const PERSIST_TRIES := 3

  /** How a database write ended: done, done although an error was reported, or not done. */
  datatype Write = Done | Unconfirmed | Lost

  type Tries = t: seq<Write> | |t| == PERSIST_TRIES witness [Lost, Lost, Lost]

  /**
   * What the program sees of a send. `arrived` is hidden from it: Telegram may
   * have accepted a message whose acknowledgement was lost.
   */
  datatype Send = Accepted | Rejected(errorClass: ErrorClass, arrived: bool)

  // ---- Statements -------------------------------------------------------------------

  predicate HasAttempt(attempts: seq<Attempt>, no: nat) {
    exists a | a in attempts :: a.no == no
  }

  // ON CONFLICT (log, number) DO NOTHING.
  function InsertAttempt(attempts: seq<Attempt>, a: Attempt): seq<Attempt> {
    if HasAttempt(attempts, a.no) then attempts else attempts + [a]
  }

  predicate CountsAsFailure(a: Attempt) {
    !a.succeeded && (a.errorClass.None? || !IsUncounted(a.errorClass.value))
  }

  function CountedFailures(attempts: seq<Attempt>): nat {
    if attempts == [] then 0
    else CountedFailures(attempts[..|attempts| - 1]) + if CountsAsFailure(attempts[|attempts| - 1]) then 1 else 0
  }

  function SetStatus(log: Log, status: Status, w: Write): Log {
    if w.Lost? then log else log.(status := status)
  }

  function Outcome(no: nat, send: Send): Attempt {
    Attempt(no, send.Accepted?, if send.Accepted? then None else Some(send.errorClass))
  }

  // The attempt row and the status, in one transaction.
  function Applied(log: Log, a: Attempt, status: Status): Log {
    Log(status, InsertAttempt(log.attempts, a))
  }

  // Try to persist until one try is confirmed. The flag says whether one was.
  function Persist(log: Log, a: Attempt, status: Status, tries: seq<Write>): (Log, bool)
    decreases |tries|
  {
    if tries == [] then (log, false)
    else
      var after := if tries[0].Lost? then log else Applied(log, a, status);
      if tries[0].Done? then (after, true) else Persist(after, a, status, tries[1..])
  }

  // ---- One delivery -----------------------------------------------------------------

  /** The log afterwards, and whether its charge was given back. */
  datatype Ended = Ended(log: Log, refunded: bool)

  /** Everything the outside decides in one delivery or retry. */
  datatype Circumstances = Circumstances(
    rawAvailable: bool, aliasAvailable: bool, routeAvailable: bool, prepared: bool, interrupted: bool, send: Send,
    tries: Tries,
    close: Write, refund: Write, migratesLate: bool, abort: Write, reset: Write)

  // An error escaped: mark the log as failed, if that write goes through.
  function Reset(log: Log, c: Circumstances): Ended {
    Ended(SetStatus(log, Failed, c.reset), false)
  }

  function ClosePermanentlyFailed(log: Log, c: Circumstances): Ended {
    var closed := SetStatus(log, PermanentlyFailed, c.close);
    if c.close.Done? then Ended(closed, !c.refund.Lost?) else Reset(closed, c)
  }

  // After the outcome was persisted, or not: refund, or hand back for a migrated chat.
  function Settle(persisted: Log, confirmed: bool, status: Status, c: Circumstances): Ended {
    if !confirmed then Reset(persisted, c)
    else if status.PermanentlyFailed? then Ended(persisted, !c.refund.Lost?)
    else if c.send.Accepted? && c.migratesLate then Ended(SetStatus(persisted, Failed, c.abort), false)
    else Ended(persisted, false)
  }

  function AfterSend(log: Log, no: nat, status: Status, c: Circumstances): Ended {
    var (persisted, confirmed) := Persist(log, Outcome(no, c.send), status, c.tries);
    Settle(persisted, confirmed, status, c)
  }

  // The first delivery of an accepted log. One whose alias went away is left as it stands.
  function Deliver(log: Log, c: Circumstances): Ended {
    if !c.prepared then Reset(log, c)
    else if !c.aliasAvailable then Ended(log, false)
    else
      var processing := log.(status := Processing);
      if c.interrupted then Reset(processing, c)
      else if !c.routeAvailable then Ended(processing, false)
      else
        var status :=
          if c.send.Accepted? then Delivered
          else if RetryDisposition(c.send.errorClass).FailPermanently? then PermanentlyFailed
          else Failed;
        AfterSend(processing, 1, status, c)
  }

  function StatusAfterRetry(counted: nat, send: Send): Status {
    if send.Accepted? then Delivered
    else
      var disposition := RetryDisposition(send.errorClass);
      var after := if disposition.RetryCounted? then counted + 1 else counted;
      if disposition.FailPermanently? || after >= MAX_RETRIES then PermanentlyFailed else Failed
  }

  // A retry of a claimed log.
  function Retry(log: Log, c: Circumstances): Ended {
    var counted := CountedFailures(log.attempts);
    if !c.rawAvailable || counted >= MAX_RETRIES || !c.routeAvailable then ClosePermanentlyFailed(log, c)
    else if !c.prepared then Reset(log, c)
    else AfterSend(log, |log.attempts| + 1, StatusAfterRetry(counted, c.send), c)
  }

  predicate Claimable(status: Status) {
    status.Failed? || status.Received? || status.Processing? || status.Retrying?
  }

  // ---- Runs -------------------------------------------------------------------------

  /** A log, whether its first delivery began, and how often its charge was given back. */
  datatype Track = Track(log: Log, started: bool, refunds: nat)

  datatype Action = First(c: Circumstances) | RetryCycle(claim: Write, c: Circumstances) | Expire(w: Write)

  function Note(t: Track, e: Ended): Track {
    Track(e.log, true, t.refunds + if e.refunded then 1 else 0)
  }

  // One delivery at a time, the first one once; retries claim the log first.
  function Next(t: Track, a: Action): Track {
    match a
    case First(c) => if t.started then t else Note(t, Deliver(t.log, c))
    case RetryCycle(claim, c) =>
      if !Claimable(t.log.status) || claim.Lost? then t
      else if claim.Unconfirmed? then t.(log := t.log.(status := Retrying), started := true)
      else Note(t, Retry(t.log.(status := Retrying), c))
    case Expire(w) =>
      if IsFinal(t.log.status) then t else t.(log := SetStatus(t.log, PermanentlyFailed, w), started := true)
  }

  function Run(t: Track, actions: seq<Action>): Track
    decreases actions
  {
    if actions == [] then t else Run(Next(t, actions[0]), actions[1..])
  }

  function NewLog(): Track {
    Track(Log(Received, []), false, 0)
  }

  // ---- What every run keeps -----------------------------------------------------------

  predicate Numbered(attempts: seq<Attempt>) {
    forall i | 0 <= i < |attempts| :: attempts[i].no == i + 1
  }

  ghost predicate Invariant(t: Track) {
    && Numbered(t.log.attempts)
    && CountedFailures(t.log.attempts) <= MAX_RETRIES
    && t.refunds <= 1
    && (t.refunds == 1 ==> t.log.status.PermanentlyFailed?)
    && (!t.started ==> t.log == Log(Received, []) && t.refunds == 0)
  }

  lemma NextNumberIsFree(attempts: seq<Attempt>, a: Attempt)
    requires Numbered(attempts) && a.no == |attempts| + 1
    ensures InsertAttempt(attempts, a) == attempts + [a] && Numbered(attempts + [a])
    ensures InsertAttempt(attempts + [a], a) == attempts + [a]
    ensures CountedFailures(attempts + [a]) == CountedFailures(attempts) + if CountsAsFailure(a) then 1 else 0
  {
    assert (attempts + [a])[|attempts|] == a;
    assert (attempts + [a])[..|attempts|] == attempts;
  }

  // Some try reached the database; some try was confirmed.
  predicate Landed(tries: seq<Write>) {
    tries != [] && (!tries[0].Lost? || Landed(tries[1..]))
  }

  predicate Confirmed(tries: seq<Write>) {
    tries != [] && (tries[0].Done? || Confirmed(tries[1..]))
  }

  /**
   * Persisting is idempotent: however many tries reached the database, the
   * attempt is in the table exactly once and the status is its status; if none
   * did, nothing changed.
   */
  lemma {:induction false} PersistsOnceOrNot(log: Log, a: Attempt, status: Status, tries: seq<Write>)
    requires Numbered(log.attempts) && a.no == |log.attempts| + 1
    ensures var (after, confirmed) := Persist(log, a, status, tries);
            after == (if Landed(tries) then Log(status, log.attempts + [a]) else log) && confirmed == Confirmed(tries)
    decreases |tries|
  {
    NextNumberIsFree(log.attempts, a);
    if tries != [] {
      if tries[0].Lost? {
        PersistsOnceOrNot(log, a, status, tries[1..]);
      } else if tries[0].Unconfirmed? {
        PersistsAgain(log, a, status, tries[1..]);
      }
    }
  }

  lemma {:induction false} PersistsAgain(log: Log, a: Attempt, status: Status, tries: seq<Write>)
    requires Numbered(log.attempts) && a.no == |log.attempts| + 1
    ensures var written := Log(status, log.attempts + [a]);
            Persist(written, a, status, tries) == (written, Confirmed(tries))
    decreases |tries|
  {
    NextNumberIsFree(log.attempts, a);
    if tries != [] && !tries[0].Done? {
      PersistsAgain(log, a, status, tries[1..]);
    }
  }

  lemma {:induction false} ConfirmedLanded(tries: seq<Write>)
    ensures Confirmed(tries) ==> Landed(tries)
  {
    if tries != [] {
      ConfirmedLanded(tries[1..]);
    }
  }

  // The facts one delivery or retry leaves behind.
  ghost predicate EndsWell(before: Log, e: Ended) {
    && Numbered(e.log.attempts)
    && (e.log.attempts == before.attempts
        || (|e.log.attempts| == |before.attempts| + 1 && before.attempts <= e.log.attempts))
    && CountedFailures(e.log.attempts) <= MAX_RETRIES
    && (e.refunded ==> e.log.status.PermanentlyFailed?)
  }

  // What an attempt leaves in the table: its row and status if some try landed.
  function Written(log: Log, a: Attempt, status: Status, landed: bool): Log {
    if landed then Log(status, log.attempts + [a]) else log
  }

  lemma SettleEndsWell(log: Log, a: Attempt, status: Status, landed: bool, confirmed: bool, c: Circumstances)
    requires Numbered(log.attempts) && CountedFailures(log.attempts) < MAX_RETRIES && a.no == |log.attempts| + 1
    requires confirmed ==> landed
    ensures EndsWell(log, Settle(Written(log, a, status, landed), confirmed, status, c))
  {
    NextNumberIsFree(log.attempts, a);
    hide CountedFailures, InsertAttempt;
  }

  lemma AfterSendIs(log: Log, status: Status, c: Circumstances)
    requires Numbered(log.attempts)
    ensures var a := Outcome(|log.attempts| + 1, c.send);
            AfterSend(log, |log.attempts| + 1, status, c) ==
            Settle(Written(log, a, status, Landed(c.tries)), Confirmed(c.tries), status, c)
    ensures Confirmed(c.tries) ==> Landed(c.tries)
  {
    PersistsOnceOrNot(log, Outcome(|log.attempts| + 1, c.send), status, c.tries);
    ConfirmedLanded(c.tries);
  }

  lemma AfterSendEndsWell(log: Log, status: Status, c: Circumstances)
    requires Numbered(log.attempts) && CountedFailures(log.attempts) < MAX_RETRIES
    ensures EndsWell(log, AfterSend(log, |log.attempts| + 1, status, c))
  {
    AfterSendIs(log, status, c);
    SettleEndsWell(log, Outcome(|log.attempts| + 1, c.send), status, Landed(c.tries), Confirmed(c.tries), c);
  }

  lemma FirstKeeps(t: Track, c: Circumstances)
    requires Invariant(t)
    ensures Invariant(Next(t, First(c))) && t.log.attempts <= Next(t, First(c)).log.attempts
  {
    if !t.started && c.prepared && c.aliasAvailable && !c.interrupted && c.routeAvailable {
      AfterSendEndsWell(t.log.(status := Processing), AfterFirst(c.send), c);
    }
  }

  lemma RetryKeeps(t: Track, c: Circumstances)
    requires Invariant(t) && Claimable(t.log.status)
    ensures var next := Note(t, Retry(t.log.(status := Retrying), c));
            Invariant(next) && t.log.attempts <= next.log.attempts
  {
    if CountedFailures(t.log.attempts) < MAX_RETRIES {
      AfterSendEndsWell(t.log.(status := Retrying), StatusAfterRetry(CountedFailures(t.log.attempts), c.send), c);
    }
  }

  lemma NextKeeps(t: Track, a: Action)
    requires Invariant(t)
    ensures Invariant(Next(t, a))
    ensures t.log.status.PermanentlyFailed? ==> Next(t, a) == t
    ensures t.log.attempts <= Next(t, a).log.attempts
  {
    hide Deliver, Retry;
    match a
    case First(c) => FirstKeeps(t, c);
    case RetryCycle(claim, c) => if claim.Done? && Claimable(t.log.status) { RetryKeeps(t, c); }
    case Expire(w) =>
  }

  function AfterFirst(send: Send): Status {
    if send.Accepted? then Delivered
    else if RetryDisposition(send.errorClass).FailPermanently? then PermanentlyFailed
    else Failed
  }

  lemma {:induction false} RunKeeps(t: Track, actions: seq<Action>)
    requires Invariant(t)
    ensures Invariant(Run(t, actions))
    ensures t.log.status.PermanentlyFailed? ==> Run(t, actions) == t
    decreases actions
  {
    if actions != [] {
      NextKeeps(t, actions[0]);
      RunKeeps(Next(t, actions[0]), actions[1..]);
    }
  }

  /**
   * For every sequence of send outcomes, lost or unconfirmed writes and
   * expiries: attempt numbers are exactly 1 to n, at most three counted
   * failures are ever recorded, and the charge is given back at most once, and
   * only for a log closed as permanently failed.
   */
  lemma EveryRun(actions: seq<Action>)
    ensures var t := Run(NewLog(), actions);
            && (forall i | 0 <= i < |t.log.attempts| :: t.log.attempts[i].no == i + 1)
            && CountedFailures(t.log.attempts) <= 3
            && t.refunds <= 1
            && (t.refunds == 1 ==> t.log.status.PermanentlyFailed?)
  {
    RunKeeps(NewLog(), actions);
  }

  /** A log closed as permanently failed is final: nothing is sent, recorded or refunded again. */
  lemma ClosedIsFinal(actions: seq<Action>, later: seq<Action>)
    requires Run(NewLog(), actions).log.status.PermanentlyFailed?
    ensures Run(Run(NewLog(), actions), later) == Run(NewLog(), actions)
  {
    RunKeeps(NewLog(), actions);
    RunKeeps(Run(NewLog(), actions), later);
  }

  // A retry with budget left that gets as far as sending.
  lemma RetrySends(t: Track, c: Circumstances)
    requires Invariant(t) && Claimable(t.log.status) && CountedFailures(t.log.attempts) < 3
    requires c.rawAvailable && c.routeAvailable && c.prepared
    ensures var claimed := t.log.(status := Retrying);
            var status := StatusAfterRetry(CountedFailures(t.log.attempts), c.send);
            var written := Written(claimed, Outcome(|t.log.attempts| + 1, c.send), status, Landed(c.tries));
            Next(t, RetryCycle(Done, c)) == Note(t, Settle(written, Confirmed(c.tries), status, c))
    ensures Confirmed(c.tries) ==> Landed(c.tries)
  {
    AfterSendIs(t.log.(status := Retrying), StatusAfterRetry(CountedFailures(t.log.attempts), c.send), c);
  }

  /**
   * The third counted failure closes the log, in the transaction that records
   * it; with an earlier failure count the log stays retryable. Should every
   * confirmation be lost, the next retry sends nothing and closes it.
   */
  lemma ThirdCountedFailureCloses(t: Track, c: Circumstances)
    requires Invariant(t) && Claimable(t.log.status) && CountedFailures(t.log.attempts) < 3
    requires c.rawAvailable && c.routeAvailable && c.prepared
    requires c.send.Rejected? && RetryDisposition(c.send.errorClass).RetryCounted? && c.tries[0].Done?
    ensures var after := Next(t, RetryCycle(Done, c)).log;
            && CountedFailures(after.attempts) == CountedFailures(t.log.attempts) + 1
            && (after.status.PermanentlyFailed? <==> CountedFailures(after.attempts) == 3)
            && (after.status.PermanentlyFailed? || after.status.Failed?)
  {
    hide CountedFailures, Persist, InsertAttempt, Retry, Deliver, Numbered;
    var a := Outcome(|t.log.attempts| + 1, c.send);
    RetrySends(t, c);
    NextNumberIsFree(t.log.attempts, a);
  }

  lemma SpentBudgetClosesWithoutSending(t: Track, c: Circumstances)
    requires Invariant(t) && Claimable(t.log.status) && CountedFailures(t.log.attempts) == 3 && c.close.Done?
    ensures var after := Next(t, RetryCycle(Done, c));
            after.log == Log(PermanentlyFailed, t.log.attempts) && after.refunds == if c.refund.Lost? then 0 else 1
  {
  }

  lemma SettleUncounted(log: Log, a: Attempt, status: Status, landed: bool, confirmed: bool, c: Circumstances)
    requires Numbered(log.attempts) && a.no == |log.attempts| + 1 && !CountsAsFailure(a) && (confirmed ==> landed)
    requires if c.send.Accepted? then status.Delivered? && c.migratesLate && c.abort.Done? else status.Failed?
    requires !c.reset.Lost?
    ensures var e := Settle(Written(log, a, status, landed), confirmed, status, c);
            CountedFailures(e.log.attempts) == CountedFailures(log.attempts) && e.log.status.Failed? && !e.refunded
  {
    NextNumberIsFree(log.attempts, a);
  }

  /** Which failed attempts count, by class; a row written before classes existed counts. */
  lemma CountsByClass(a: Attempt)
    ensures CountsAsFailure(a) <==>
            && !a.succeeded
            && a.errorClass in {None, Some(Forbidden), Some(ChatNotFound), Some(BadRequest), Some(OtherClass),
                                Some(UnknownClass)}
  {
  }

  /**
   * What a retry with budget left comes to once its outcome is confirmed, by
   * the class of the failure: Telegram or the network down and a migrated chat
   * cost nothing, an unreachable chat closes the log, anything else costs one
   * try and closes the log with the third.
   */
  lemma RetryByClass(t: Track, c: Circumstances)
    requires Invariant(t) && t.log.status !in {Delivered, PermanentlyFailed}
    requires CountedFailures(t.log.attempts) < 3
    requires c.rawAvailable && c.routeAvailable && c.prepared && c.send.Rejected? && Confirmed(c.tries)
    ensures var after, counted := Next(t, RetryCycle(Done, c)), CountedFailures(t.log.attempts);
            var refunded := t.refunds + if c.refund == Lost then 0 else 1;
            && |after.log.attempts| == |t.log.attempts| + 1
            && match c.send.errorClass
               case FloodWait | Timeout | Network | Server | Migrated =>
                 CountedFailures(after.log.attempts) == counted && after.log.status == Failed
                 && after.refunds == t.refunds
               case Forbidden | ChatNotFound =>
                 CountedFailures(after.log.attempts) == counted + 1 && after.log.status == PermanentlyFailed
                 && after.refunds == refunded
               case BadRequest | OtherClass | UnknownClass =>
                 && CountedFailures(after.log.attempts) == counted + 1
                 && after.log.status == (if counted == 2 then PermanentlyFailed else Failed)
                 && after.refunds == (if counted == 2 then refunded else t.refunds)
  {
    hide CountedFailures, Persist, InsertAttempt, Retry, Deliver, Numbered;
    RetrySends(t, c);
    NextNumberIsFree(t.log.attempts, Outcome(|t.log.attempts| + 1, c.send));
  }

  /** The same for the first delivery, which only an unreachable chat closes. */
  lemma FirstByClass(c: Circumstances)
    requires c.aliasAvailable && c.routeAvailable && c.prepared && !c.interrupted && c.send.Rejected?
    requires Confirmed(c.tries)
    ensures var after := Next(NewLog(), First(c));
            && |after.log.attempts| == 1
            && match c.send.errorClass
               case FloodWait | Timeout | Network | Server | Migrated =>
                 CountedFailures(after.log.attempts) == 0 && after.log.status == Failed && after.refunds == 0
               case Forbidden | ChatNotFound =>
                 CountedFailures(after.log.attempts) == 1 && after.log.status == PermanentlyFailed
                 && after.refunds == if c.refund == Lost then 0 else 1
               case BadRequest | OtherClass | UnknownClass =>
                 CountedFailures(after.log.attempts) == 1 && after.log.status == Failed && after.refunds == 0
  {
    hide CountedFailures, Persist, InsertAttempt, Retry;
    NoFailures();
    AfterSendIs(Log(Processing, []), AfterFirst(c.send), c);
    NextNumberIsFree([], Outcome(1, c.send));
  }

  lemma NoFailures()
    ensures CountedFailures([]) == 0
  {
  }

  /**
   * Failures of Telegram or the network, and a chat that migrates after the
   * text arrived, consume none of the budget and leave the log retryable.
   */
  lemma UncountedKeepsBudget(t: Track, c: Circumstances)
    requires Invariant(t) && Claimable(t.log.status) && CountedFailures(t.log.attempts) < 3
    requires c.rawAvailable && c.routeAvailable && c.prepared
    requires if c.send.Accepted? then c.migratesLate && c.abort.Done? else
               c.send.errorClass in {FloodWait, Timeout, Network, Server, Migrated}
    requires !c.reset.Lost?
    ensures var after := Next(t, RetryCycle(Done, c));
            && CountedFailures(after.log.attempts) == CountedFailures(t.log.attempts)
            && after.log.status.Failed? && after.refunds == t.refunds
  {
    var claimed := t.log.(status := Retrying);
    var a := Outcome(|t.log.attempts| + 1, c.send);
    RetrySends(t, c);
    SettleUncounted(claimed, a, StatusAfterRetry(CountedFailures(t.log.attempts), c.send), Landed(c.tries),
                    Confirmed(c.tries), c);
  }

  /** The first delivery makes the same promise. */
  lemma FirstUncountedKeepsBudget(t: Track, c: Circumstances)
    requires Invariant(t) && !t.started && c.prepared && c.aliasAvailable && !c.interrupted && c.routeAvailable
    requires if c.send.Accepted? then c.migratesLate && c.abort.Done? else
               c.send.errorClass in {FloodWait, Timeout, Network, Server, Migrated}
    requires !c.reset.Lost?
    ensures var after := Next(t, First(c));
            && CountedFailures(after.log.attempts) == 0 && after.log.status.Failed? && after.refunds == 0
  {
    var processing := t.log.(status := Processing);
    AfterSendIs(processing, AfterFirst(c.send), c);
    SettleUncounted(processing, Outcome(1, c.send), AfterFirst(c.send), Landed(c.tries), Confirmed(c.tries), c);
  }

  // ---- Text that arrived, and refunds -----------------------------------------------------

  // The step gets as far as sending the text.
  predicate Sends(t: Track, a: Action) {
    match a
    case First(c) => !t.started && c.prepared && c.aliasAvailable && !c.interrupted && c.routeAvailable
    case RetryCycle(claim, c) =>
      && Claimable(t.log.status) && claim.Done? && c.rawAvailable && c.routeAvailable && c.prepared
      && CountedFailures(t.log.attempts) < 3
    case Expire(_) => false
  }

  // The text sent in this step reaches the chat, acknowledged or not.
  predicate TextArrives(t: Track, a: Action) {
    Sends(t, a) && (a.c.send.Accepted? || a.c.send.arrived)
  }

  // The status the step records for its send.
  function StatusOfSend(t: Track, a: Action): Status
    requires Sends(t, a)
  {
    if a.First? then AfterFirst(a.c.send) else StatusAfterRetry(CountedFailures(t.log.attempts), a.c.send)
  }

  /**
   * The step refunds or leaves the log claimable. An acknowledged send does so
   * by handing the log back, for a chat that migrated after the text; a send
   * that failed for now always does; one that closes the log does if its refund
   * goes through. When no write of the outcome was confirmed, the log stays
   * claimable unless a write landed all the same and the reset did not.
   */
  predicate StaysRefundable(t: Track, a: Action)
    requires Sends(t, a)
  {
    var c, status := a.c, StatusOfSend(t, a);
    || status.Failed?
    || if !Confirmed(c.tries) then !c.reset.Lost? || !Landed(c.tries)
       else if status.Delivered? then c.migratesLate && !c.abort.Lost?
       else !c.refund.Lost?
  }

  // After a send, however it is settled: refunded, claimable, or final without a refund.
  lemma SettledSend(log: Log, a: Attempt, status: Status, landed: bool, confirmed: bool, c: Circumstances)
    requires Claimable(log.status) && (confirmed ==> landed)
    requires if c.send.Accepted? then status.Delivered? else status.Failed? || status.PermanentlyFailed?
    ensures var e := Settle(Written(log, a, status, landed), confirmed, status, c);
            var refundable := status.Failed? || if !confirmed then !c.reset.Lost? || !landed
                                                else if status.Delivered? then c.migratesLate && !c.abort.Lost?
                                                else !c.refund.Lost?;
            if refundable then e.refunded || Claimable(e.log.status) else !e.refunded && IsFinal(e.log.status)
  {
  }

  // A step that sends leaves the log refunded or claimable, or final without a refund.
  lemma AfterSending(t: Track, a: Action)
    requires Invariant(t) && Sends(t, a)
    ensures var next := Next(t, a);
            && next.started && t.refunds == 0
            && if StaysRefundable(t, a) then next.refunds == 1 || (next.refunds == 0 && Claimable(next.log.status))
               else next.refunds == 0 && IsFinal(next.log.status)
  {
    var log := t.log.(status := if a.First? then Processing else Retrying);
    var status := StatusOfSend(t, a);
    AfterSendIs(log, status, a.c);
    SettledSend(log, Outcome(|log.attempts| + 1, a.c.send), status, Landed(a.c.tries), Confirmed(a.c.tries), a.c);
    if a.RetryCycle? {
      RetrySends(t, a.c);
    }
  }

  lemma {:induction false} FinalStays(t: Track, later: seq<Action>)
    requires t.started && IsFinal(t.log.status)
    ensures Run(t, later) == t
    decreases later
  {
    if later != [] {
      FinalStays(t, later[1..]);
    }
  }

  // The raw email is gone by the next retry, and every write goes through.
  const RAW_GONE :=
    Circumstances(false, true, true, true, false, Accepted, [Done, Done, Done], Done, Done, false, Done, Done)

  /**
   * Whatever happened before: a log whose text was sent is refunded, now or
   * later, in some continuation exactly if that step leaves it refundable. The
   * hidden arrival of the text plays no part, so the charge of mail that
   * arrived can be given back exactly then.
   */
  lemma RefundableAfterSendExactlyWhen(t: Track, a: Action)
    requires Invariant(t) && Sends(t, a)
    ensures (exists later :: Run(Next(t, a), later).refunds > 0) <==> StaysRefundable(t, a)
  {
    var next := Next(t, a);
    hide Next;
    AfterSending(t, a);
    if StaysRefundable(t, a) {
      if next.refunds == 1 {
        assert Run(next, []) == next;
      } else {
        var retry := RetryCycle(Done, RAW_GONE);
        assert Next(next, retry).refunds == 1 by { MissingRawRefunds(next); }
        assert Run(next, [retry]) == Run(Next(next, retry), []);
      }
    } else {
      forall later ensures Run(next, later).refunds == 0 { FinalStays(next, later); }
    }
  }

  lemma MissingRawRefunds(t: Track)
    requires Claimable(t.log.status) && t.refunds == 0
    ensures Next(t, RetryCycle(Done, RAW_GONE)).refunds == 1
  {
  }

  /**
   * For text that arrived, a refund at or after it is possible exactly if the
   * arrival was not acknowledged or the log was handed back; one that closes
   * the log must also get its refund through. With no write confirmed, it is
   * possible unless a final status landed and the reset was lost.
   */
  lemma ArrivedTextIsRefundableExactlyWhen(t: Track, a: Action)
    requires Invariant(t) && TextArrives(t, a)
    ensures (exists later :: Run(Next(t, a), later).refunds > 0) <==>
            if Confirmed(a.c.tries) then
              && (a.c.send.Rejected? || (a.c.migratesLate && !a.c.abort.Lost?))
              && (StatusOfSend(t, a).PermanentlyFailed? ==> !a.c.refund.Lost?)
            else !(IsFinal(StatusOfSend(t, a)) && Landed(a.c.tries) && a.c.reset.Lost?)
  {
    RefundableAfterSendExactlyWhen(t, a);
  }

  /** So in every run that ends refunded, each step whose text arrived had left the log refundable. */
  lemma {:induction false} RefundedTextWasRefundable(t: Track, actions: seq<Action>, i: nat)
    requires Invariant(t) && i < |actions|
    requires Run(t, actions).refunds > t.refunds && TextArrives(Run(t, actions[..i]), actions[i])
    ensures StaysRefundable(Run(t, actions[..i]), actions[i])
    decreases i
  {
    NextKeeps(t, actions[0]);
    if i == 0 {
      AfterSending(t, actions[0]);
      if !StaysRefundable(t, actions[0]) {
        FinalStays(Next(t, actions[0]), actions[1..]);
      }
    } else {
      hide Next;
      var next := Next(t, actions[0]);
      assert actions[..i][0] == actions[0] && actions[..i][1..] == actions[1..][..i - 1];
      if next.refunds == t.refunds {
        RefundedTextWasRefundable(next, actions[1..], i - 1);
      } else {
        RunKeeps(next, actions[1..][..i - 1]);
      }
    }
  }

  // One circumstance in which every write goes through.
  function Smooth(send: Send, migratesLate: bool): Circumstances {
    Circumstances(true, true, true, true, false, send, [Done, Done, Done], Done, Done, migratesLate, Done, Done)
  }

  lemma TextThenMigration()
    ensures Next(NewLog(), First(Smooth(Accepted, true))) == Track(Log(Failed, [Attempt(1, true, None)]), true, 0)
  {
    var c := Smooth(Accepted, true);
    var processing := Log(Processing, []);
    AfterSendIs(processing, Delivered, c);
    assert Next(NewLog(), First(c)) == Note(NewLog(), AfterSend(processing, 1, Delivered, c));
  }

  lemma ForbiddenCloses(t: Track)
    requires t == Track(Log(Failed, [Attempt(1, true, None)]), true, 0)
    ensures Next(t, RetryCycle(Done, Smooth(Rejected(Forbidden, false), false))) ==
            Track(Log(PermanentlyFailed, [Attempt(1, true, None), Attempt(2, false, Some(Forbidden))]), true, 1)
  {
    assert CountedFailures(t.log.attempts) == CountedFailures([]);
    RetrySends(t, Smooth(Rejected(Forbidden, false), false));
  }

  /**
   * The refund looks at how the log ended, not at its attempts: mail whose text
   * arrived, handed back for a migrated chat and then rejected for good, is
   * refunded.
   */
  lemma RefundDespiteDeliveredText()
    ensures var t := Run(NewLog(),
                         [First(Smooth(Accepted, true)), RetryCycle(Done, Smooth(Rejected(Forbidden, false), false))]);
            t.refunds == 1 && t.log.attempts == [Attempt(1, true, None), Attempt(2, false, Some(Forbidden))]
  {
    TextThenMigration();
    hide Next, Smooth;
    var first := Track(Log(Failed, [Attempt(1, true, None)]), true, 0);
    ForbiddenCloses(first);
    var retry := RetryCycle(Done, Smooth(Rejected(Forbidden, false), false));
    assert [First(Smooth(Accepted, true)), retry][1..] == [retry];
    assert Run(first, [retry]) == Run(Next(first, retry), []);
  }

  // The text arrived, no write of that was confirmed, and the retry is rejected for good.
  function Unconfirmable(tries: Tries): Circumstances {
    Smooth(Accepted, false).(tries := tries)
  }

  /** No migration is needed: an outcome that landed unconfirmed is reset, and then refunded despite its row. */
  lemma RefundAfterUnconfirmedOutcome()
    ensures var t := Run(NewLog(), [First(Unconfirmable([Unconfirmed, Unconfirmed, Unconfirmed])),
                                    RetryCycle(Done, Smooth(Rejected(Forbidden, false), false))]);
            t.refunds == 1 && t.log.attempts == [Attempt(1, true, None), Attempt(2, false, Some(Forbidden))]
  {
    var c := Unconfirmable([Unconfirmed, Unconfirmed, Unconfirmed]);
    var first := Track(Log(Failed, [Attempt(1, true, None)]), true, 0);
    assert c.tries[1..] == [Unconfirmed, Unconfirmed] && c.tries[1..][1..] == [Unconfirmed];
    assert Landed(c.tries) && !Confirmed(c.tries);
    AfterSendIs(Log(Processing, []), Delivered, c);
    assert Next(NewLog(), First(c)) == Note(NewLog(), AfterSend(Log(Processing, []), 1, Delivered, c)) == first;
    ForbiddenCloses(first);
    ThenForbidden(First(c), first);
  }

  lemma ThenForbidden(a: Action, first: Track)
    requires Next(NewLog(), a) == first
    ensures Run(NewLog(), [a, RetryCycle(Done, Smooth(Rejected(Forbidden, false), false))]) ==
            Next(first, RetryCycle(Done, Smooth(Rejected(Forbidden, false), false)))
  {
    hide Next, Smooth;
    var retry := RetryCycle(Done, Smooth(Rejected(Forbidden, false), false));
    assert [a, retry][1..] == [retry];
    assert Run(first, [retry]) == Run(Next(first, retry), []);
  }

  /** Nor is a row: if every write of the outcome is lost, nothing but the chat shows that the text arrived. */
  lemma RefundWithoutAnyRow()
    ensures var t := Run(NewLog(),
                         [First(Unconfirmable([Lost, Lost, Lost])),
                          RetryCycle(Done, Smooth(Rejected(Forbidden, false), false))]);
            t.refunds == 1 && t.log.attempts == [Attempt(1, false, Some(Forbidden))]
  {
    var c := Unconfirmable([Lost, Lost, Lost]);
    var first := Track(Log(Failed, []), true, 0);
    assert c.tries[1..] == [Lost, Lost] && c.tries[1..][1..] == [Lost];
    assert !Landed(c.tries) && !Confirmed(c.tries);
    AfterSendIs(Log(Processing, []), Delivered, c);
    assert Next(NewLog(), First(c)) == Note(NewLog(), AfterSend(Log(Processing, []), 1, Delivered, c)) == first;
    RetrySends(first, Smooth(Rejected(Forbidden, false), false));
    ThenForbidden(First(c), first);
  }

  lemma TimeoutKeepsOpen(send: Send)
    requires send.Rejected? && send.errorClass.Timeout?
    ensures Next(NewLog(), First(Smooth(send, false))) ==
            Track(Log(Failed, [Attempt(1, false, Some(Timeout))]), true, 0)
  {
    var c, processing := Smooth(send, false), Log(Processing, []);
    AfterSendIs(processing, Failed, c);
    assert Next(NewLog(), First(c)) == Note(NewLog(), AfterSend(processing, 1, Failed, c));
  }

  /**
   * Nor is a write lost: the text arrives, its acknowledgement does not, and
   * the chat forbids the retry. The rows show two failures.
   */
  lemma LostAcknowledgementIsRefunded()
    ensures TextArrives(NewLog(), First(Smooth(Rejected(Timeout, true), false)))
    ensures var t := Run(NewLog(), [First(Smooth(Rejected(Timeout, true), false)),
                                    RetryCycle(Done, Smooth(Rejected(Forbidden, false), false))]);
            t.refunds == 1 && t.log.attempts == [Attempt(1, false, Some(Timeout)), Attempt(2, false, Some(Forbidden))]
  {
    var first := Track(Log(Failed, [Attempt(1, false, Some(Timeout))]), true, 0);
    TimeoutKeepsOpen(Rejected(Timeout, true));
    assert first.log.attempts[..0] == [] && CountedFailures(first.log.attempts) == CountedFailures([]) == 0;
    RetrySends(first, Smooth(Rejected(Forbidden, false), false));
    ThenForbidden(First(Smooth(Rejected(Timeout, true), false)), first);
  }

  /** An unrecognised error that hides an arrival and is the third counted failure is refunded in its own step. */
  lemma ThirdCountedFailureIsRefunded(t: Track)
    requires Invariant(t) && Claimable(t.log.status) && CountedFailures(t.log.attempts) == 2
    ensures var retry := RetryCycle(Done, Smooth(Rejected(OtherClass, true), false));
            TextArrives(t, retry) && Next(t, retry).refunds == 1
  {
    hide CountedFailures;
    RetrySends(t, Smooth(Rejected(OtherClass, true), false));
  }
}
