/**
 * Sending one message as rich or classic text, and photos in batches. Telegram
 * is an oracle: each call has a reply, and beside it the hidden fact whether
 * Telegram accepted the message, which a lost acknowledgement can conceal.
 */
module Sender {
  import opened Delivery

  const MAX_TRIES := 3
  const MEDIA_GROUP_MAX := 10

  /** A described failure. `code` is set when Telegram itself answered. */
  datatype Failure = Failure(code: Option<int>, errorClass: ErrorClass, migrates: bool, destinationOrAuth: bool)
  {
    predicate IsTransient() {
      errorClass.FloodWait? || errorClass.Timeout? || errorClass.Network? || errorClass.Server?
    }
  }

  datatype Reply = Acknowledged | Failed(failure: Failure)

  datatype Call = Call(reply: Reply, accepted: bool)

  // An acknowledged message was accepted; one Telegram itself refused for good was not.
  predicate Honest(c: Call) {
    match c.reply
    case Acknowledged => c.accepted
    case Failed(f) => f.code.Some? && !f.IsTransient() ==> !c.accepted
  }

  // The calls Telegram would see, in order, and enough of them.
  predicate Ready(calls: seq<Call>) {
    |calls| >= MAX_TRIES && forall c | c in calls :: Honest(c)
  }

  predicate Stops(f: Failure) {
    f.migrates || (f.code.Some? && !f.IsTransient())
  }

  // How many calls one send makes: until it succeeds, fails for good, or was tried three times.
  function Tries(calls: seq<Call>, made: nat): (n: nat)
    requires |calls| >= MAX_TRIES && made < MAX_TRIES
    ensures made < n <= MAX_TRIES
    decreases MAX_TRIES - made
  {
    var reply := calls[made].reply;
    if reply.Acknowledged? || Stops(reply.failure) || made + 1 == MAX_TRIES then made + 1 else Tries(calls, made + 1)
  }

  predicate SomeAccepted(calls: seq<Call>) {
    exists c | c in calls :: c.accepted
  }

  predicate UsesClassicFallback(f: Failure) {
    && !f.IsTransient() && !f.migrates
    && (f.code == Some(404) || (f.code == Some(400) && f.errorClass.BadRequest? && !f.destinationOrAuth))
  }

  /** What a message comes with: a rich form or none, and the runtime switch. */
  datatype Options = Options(hasRich: bool, richEnabled: bool)

  /** The calls made on each transport, the last reply, and the capability latch afterwards. */
  datatype Sent = Sent(richCalls: nat, classicCalls: nat, reply: Reply, latched: bool)

  function LastReply(calls: seq<Call>): Reply
    requires |calls| >= MAX_TRIES
  {
    calls[Tries(calls, 0) - 1].reply
  }

  function SendMessage(o: Options, latched: bool, rich: seq<Call>, classic: seq<Call>): Sent
    requires |rich| >= MAX_TRIES && |classic| >= MAX_TRIES
  {
    var onlyClassic := Sent(0, Tries(classic, 0), LastReply(classic), latched);
    if !o.hasRich || !o.richEnabled || latched then onlyClassic
    else
      var n, reply := Tries(rich, 0), LastReply(rich);
      var unavailable := reply.Failed? && reply.failure.code == Some(404);
      if reply.Acknowledged? || n != 1 || !UsesClassicFallback(reply.failure) then Sent(n, 0, reply, unavailable)
      else onlyClassic.(richCalls := n, latched := unavailable)
  }

  // Telegram knows no rich messages, or takes exception to this one and not to the chat or the bot.
  predicate RefusedForItsForm(r: Reply) {
    && r.Failed? && r.failure.errorClass !in {FloodWait, Timeout, Network, Server} && !r.failure.migrates
    && (r.failure.code == Some(404)
        || (r.failure.code == Some(400) && r.failure.errorClass == BadRequest && !r.failure.destinationOrAuth))
  }

  // Tried again: neither a migration nor an answer of Telegram that the same request cannot change.
  predicate WorthRepeating(r: Reply) {
    && r.Failed? && !r.failure.migrates
    && (r.failure.code.None? || r.failure.errorClass in {FloodWait, Timeout, Network, Server})
  }

  /** One send stops at the first of three calls that is not worth repeating, or at the third. */
  lemma TriesExactlyWhen(calls: seq<Call>, n: nat)
    requires |calls| >= MAX_TRIES
    ensures n == Tries(calls, 0) <==>
            && 1 <= n <= 3 && (forall k | 0 <= k < n - 1 :: WorthRepeating(calls[k].reply))
            && (n < 3 ==> !WorthRepeating(calls[n - 1].reply))
  {
    assert Tries(calls, 2) == 3;
    assert Tries(calls, 1) == if WorthRepeating(calls[1].reply) then 3 else 2;
    assert Tries(calls, 0) == if WorthRepeating(calls[0].reply) then Tries(calls, 1) else 1;
  }

  /**
   * Which forms are tried, and whose answer is reported. The rich form is tried
   * if there is one, it is enabled and the method is not known to be missing;
   * the classic form if the rich one is not tried, or is refused at the first
   * call for its form. The latch is set by a 404 and by nothing else.
   */
  lemma FormsTriedExactlyWhen(o: Options, latched: bool, rich: seq<Call>, classic: seq<Call>)
    requires |rich| >= MAX_TRIES && |classic| >= MAX_TRIES
    ensures var s := SendMessage(o, latched, rich, classic);
            var triesRich := o.hasRich && o.richEnabled && !latched;
            var triesClassic := !triesRich || RefusedForItsForm(rich[0].reply);
            && s.richCalls == (if triesRich then Tries(rich, 0) else 0)
            && s.classicCalls == (if triesClassic then Tries(classic, 0) else 0)
            && s.reply == (if triesClassic then classic[s.classicCalls - 1] else rich[s.richCalls - 1]).reply
            && (s.latched <==>
                latched || (triesRich && var last := rich[s.richCalls - 1].reply;
                            last.Failed? && last.failure.code == Some(404)))
  {
    TriesExactlyWhen(rich, Tries(rich, 0));
  }

  /**
   * Whatever Telegram answers or loses: the rich and the classic form of one
   * message are never both accepted, a reported success was accepted, and a
   * rich form is tried only while the method is believed to exist.
   */
  lemma NeverBoth(o: Options, latched: bool, rich: seq<Call>, classic: seq<Call>)
    requires Ready(rich) && Ready(classic)
    ensures var s := SendMessage(o, latched, rich, classic);
            && s.richCalls <= MAX_TRIES && s.classicCalls <= MAX_TRIES
            && !(SomeAccepted(rich[..s.richCalls]) && SomeAccepted(classic[..s.classicCalls]))
            && (s.reply.Acknowledged? ==> SomeAccepted(rich[..s.richCalls]) || SomeAccepted(classic[..s.classicCalls]))
            && (latched ==> s.latched && s.richCalls == 0)
  {
    var s := SendMessage(o, latched, rich, classic);
    if s.richCalls == 1 && s.classicCalls > 0 {
      assert rich[0] in rich;
      assert forall c | c in rich[..1] :: c == rich[0];
    }
    if s.reply.Acknowledged? {
      if s.classicCalls > 0 {
        AcknowledgedIsAccepted(classic, s.classicCalls);
      } else {
        AcknowledgedIsAccepted(rich, s.richCalls);
      }
    }
  }

  lemma AcknowledgedIsAccepted(calls: seq<Call>, n: nat)
    requires Ready(calls) && 0 < n <= |calls| && calls[n - 1].reply.Acknowledged?
    ensures SomeAccepted(calls[..n])
  {
    assert calls[n - 1] in calls;
    assert calls[..n][n - 1] == calls[n - 1];
  }

  // A send that reports a permanent refusal on its first call was not accepted at all.
  lemma RefusedAtOnceIsNotAccepted(calls: seq<Call>)
    requires Ready(calls) && Tries(calls, 0) == 1
    requires LastReply(calls).Failed? && LastReply(calls).failure.code.Some? && !LastReply(calls).failure.IsTransient()
    ensures !SomeAccepted(calls[..1])
  {
    assert calls[0] in calls;
  }

  // What the delivery sees of a send, and beside it whether the text arrived.
  function OutcomeOf(s: Sent, rich: seq<Call>, classic: seq<Call>): Send
    requires s.richCalls <= |rich| && s.classicCalls <= |classic|
  {
    if s.reply.Acknowledged? then Accepted
    else Rejected(s.reply.failure.errorClass,
                  SomeAccepted(rich[..s.richCalls]) || SomeAccepted(classic[..s.classicCalls]))
  }

  // Three lost acknowledgements that end in a given failure.
  function Unacknowledged(errorClass: ErrorClass): seq<Call> {
    var call := Call(Reply.Failed(Failure(None, errorClass, false, false)), true);
    [call, call, call]
  }

  /**
   * A failed send can hide an arrival, whatever the class of its last error;
   * one that Telegram itself refused for good at the first call cannot.
   */
  lemma FailureMayHideArrival(errorClass: ErrorClass, classic: seq<Call>)
    requires classic == Unacknowledged(errorClass)
    ensures Ready(classic)
    ensures OutcomeOf(SendMessage(Options(false, true), false, classic, classic), classic, classic)
            == Rejected(errorClass, true)
  {
    assert classic[0] in classic[..MAX_TRIES] && classic[0].accepted;
    assert Tries(classic, 2) == 3 && Tries(classic, 1) == 3;
  }

  lemma RefusalHidesNoArrival(latched: bool, rich: seq<Call>, classic: seq<Call>)
    requires Ready(classic) && |rich| >= MAX_TRIES && Tries(classic, 0) == 1
    requires var reply := LastReply(classic); reply.Failed? && reply.failure.code.Some? && !reply.failure.IsTransient()
    ensures var s := SendMessage(Options(false, true), latched, rich, classic);
            OutcomeOf(s, rich, classic) == Rejected(LastReply(classic).failure.errorClass, false)
  {
    RefusedAtOnceIsNotAccepted(classic);
    assert rich[..0] == [];
  }

  method SendWithRetries(calls: seq<Call>) returns (reply: Reply, attempts: nat)
    requires |calls| >= MAX_TRIES
    ensures attempts == Tries(calls, 0) && reply == LastReply(calls)
    ensures forall k | 0 <= k < attempts - 1 :: calls[k].reply.Failed? && !Stops(calls[k].reply.failure)
  {
    attempts := 0;
    reply := calls[0].reply;
    while attempts < MAX_TRIES
      invariant attempts <= MAX_TRIES
      invariant attempts < MAX_TRIES ==> Tries(calls, attempts) == Tries(calls, 0)
      invariant attempts == MAX_TRIES ==> Tries(calls, 0) == MAX_TRIES
      invariant attempts > 0 ==> reply == calls[attempts - 1].reply
      invariant forall k | 0 <= k < attempts ::
                calls[k].reply.Failed? && (k < MAX_TRIES - 1 ==> !Stops(calls[k].reply.failure))
    {
      reply := calls[attempts].reply;
      attempts := attempts + 1;
      if reply.Acknowledged? || Stops(reply.failure) {
        return;
      }
    }
  }

  /** The process-wide latch: set once Telegram says it does not know the rich method. */
  class MessageSender {
    var richMessageMethodUnavailable: bool

    constructor ()
      ensures !richMessageMethodUnavailable
    {
      richMessageMethodUnavailable := false;
    }

    method SendTelegramMessage(o: Options, rich: seq<Call>, classic: seq<Call>) returns (s: Sent)
      requires |rich| >= MAX_TRIES && |classic| >= MAX_TRIES
      modifies this
      ensures s == SendMessage(o, old(richMessageMethodUnavailable), rich, classic)
      ensures richMessageMethodUnavailable == s.latched
    {
      var richCalls := 0;
      if o.hasRich && o.richEnabled && !richMessageMethodUnavailable {
        var richReply, attempts := SendWithRetries(rich);
        richCalls := attempts;
        if richReply.Acknowledged? {
          return Sent(richCalls, 0, richReply, richMessageMethodUnavailable);
        }
        if richReply.failure.code == Some(404) {
          richMessageMethodUnavailable := true;
        }
        if attempts != 1 || !UsesClassicFallback(richReply.failure) {
          return Sent(richCalls, 0, richReply, richMessageMethodUnavailable);
        }
      }
      var reply, classicCalls := SendWithRetries(classic);
      return Sent(richCalls, classicCalls, reply, richMessageMethodUnavailable);
    }
  }

  // ---- Photos -------------------------------------------------------------------------

  type Photo = string

  /** What became of a batch: one fate per photo, true when it was sent. */
  datatype Batch = Batch(fates: seq<bool>, calls: nat, failure: Option<Failure>)

  function Min(a: nat, b: nat): nat {
    if a < b then a else b
  }

  function Repeat(b: bool, n: nat): (r: seq<bool>)
    ensures |r| == n && forall i | 0 <= i < n :: r[i] == b
  {
    seq(n, _ => b)
  }

  // Chunks of ten, one reply each; a migrated chat fails all that is left.
  function SendChunks(photos: nat, replies: seq<Reply>): (r: Batch)
    requires |replies| * MEDIA_GROUP_MAX >= photos
    ensures |r.fates| == photos
    decreases photos
  {
    if photos == 0 then Batch([], 0, None)
    else
      var size := Min(MEDIA_GROUP_MAX, photos);
      var reply := replies[0];
      if reply.Failed? && reply.failure.migrates then Batch(Repeat(false, photos), 1, Some(reply.failure))
      else
        var rest := SendChunks(photos - size, replies[1..]);
        var failure :=
          if rest.failure.Some? && rest.failure.value.migrates then rest.failure
          else if reply.Failed? then Some(reply.failure)
          else rest.failure;
        Batch(Repeat(reply.Acknowledged?, size) + rest.fates, 1 + rest.calls, failure)
  }

  // The photos of one fate, in order.
  function Pick(photos: seq<Photo>, fates: seq<bool>, fate: bool): seq<Photo>
    requires |photos| == |fates|
  {
    if photos == [] then []
    else (if fates[0] == fate then [photos[0]] else []) + Pick(photos[1..], fates[1..], fate)
  }

  lemma {:induction false} PickConcat(p: seq<Photo>, f: seq<bool>, q: seq<Photo>, g: seq<bool>, fate: bool)
    requires |p| == |f| && |q| == |g|
    ensures Pick(p + q, f + g, fate) == Pick(p, f, fate) + Pick(q, g, fate)
  {
    if p == [] {
      assert p + q == q && f + g == g;
    } else {
      assert (p + q)[1..] == p[1..] + q && (f + g)[1..] == f[1..] + g;
      PickConcat(p[1..], f[1..], q, g, fate);
      var own, x, y := if f[0] == fate then [p[0]] else [], Pick(p[1..], f[1..], fate), Pick(q, g, fate);
      assert own + (x + y) == own + x + y;
    }
  }

  lemma {:induction false} PickAll(p: seq<Photo>, fate: bool)
    ensures Pick(p, Repeat(fate, |p|), fate) == p && Pick(p, Repeat(!fate, |p|), fate) == []
  {
    if p != [] {
      assert Repeat(fate, |p|)[1..] == Repeat(fate, |p| - 1) && Repeat(!fate, |p|)[1..] == Repeat(!fate, |p| - 1);
      PickAll(p[1..], fate);
    }
  }

  /** Every photo is in exactly one of the two lists. */
  lemma {:induction false} PickPartitions(photos: seq<Photo>, fates: seq<bool>)
    requires |photos| == |fates|
    ensures multiset(Pick(photos, fates, true)) + multiset(Pick(photos, fates, false)) == multiset(photos)
  {
    if photos != [] {
      PickPartitions(photos[1..], fates[1..]);
      assert photos == [photos[0]] + photos[1..];
      var yes, no := Pick(photos[1..], fates[1..], true), Pick(photos[1..], fates[1..], false);
      if fates[0] {
        assert Pick(photos, fates, true) == [photos[0]] + yes && Pick(photos, fates, false) == no;
      } else {
        assert Pick(photos, fates, true) == yes && Pick(photos, fates, false) == [photos[0]] + no;
      }
    }
  }

  /**
   * Something failed exactly if a failure is reported; after a chat migrated
   * nothing more is sent, and that failure is the one reported.
   */
  lemma {:induction false} FailureIsReported(photos: nat, replies: seq<Reply>)
    requires |replies| * MEDIA_GROUP_MAX >= photos
    ensures var r := SendChunks(photos, replies);
            && (r.failure.Some? <==> false in r.fates)
            && r.calls <= |replies|
            && (forall k | 0 <= k < r.calls && replies[k].Failed? && replies[k].failure.migrates ::
                  k == r.calls - 1 && r.failure == Some(replies[k].failure)
                  && forall i | k * MEDIA_GROUP_MAX <= i < photos :: !r.fates[i])
    decreases photos
  {
    if photos > 0 {
      var r := SendChunks(photos, replies);
      var size := Min(MEDIA_GROUP_MAX, photos);
      if replies[0].Failed? && replies[0].failure.migrates {
        assert !r.fates[0];
      } else {
        var rest := SendChunks(photos - size, replies[1..]);
        FailureIsReported(photos - size, replies[1..]);
        assert r.fates == Repeat(replies[0].Acknowledged?, size) + rest.fates;
        assert replies[0].Failed? ==> !r.fates[0];
        forall k | 0 <= k < r.calls && replies[k].Failed? && replies[k].failure.migrates
          ensures k == r.calls - 1 && r.failure == Some(replies[k].failure)
          ensures forall i | k * MEDIA_GROUP_MAX <= i < photos :: !r.fates[i]
        {
          assert replies[k] == replies[1..][k - 1];
        }
      }
    }
  }

  // The chat has moved, so nothing more can be sent to it.
  predicate Migrates(r: Reply) {
    r.Failed? && r.failure.migrates
  }

  predicate NoMigration(replies: seq<Reply>, n: nat)
    requires n <= |replies|
  {
    forall j | 0 <= j < n :: !Migrates(replies[j])
  }

  lemma NoMigrationStep(replies: seq<Reply>, n: nat)
    requires 0 < n <= |replies|
    ensures NoMigration(replies, n) <==> !Migrates(replies[0]) && NoMigration(replies[1..], n - 1)
  {
    if !Migrates(replies[0]) && NoMigration(replies[1..], n - 1) {
      forall j | 0 <= j < n ensures !Migrates(replies[j]) {
        assert j > 0 ==> replies[j] == replies[1..][j - 1];
      }
    }
  }

  /**
   * Photo `i` goes with group `i / 10` and is sent exactly if that group is
   * acknowledged and no group before it met a migration.
   */
  lemma {:induction false} PhotoSentExactlyWhen(photos: nat, replies: seq<Reply>, i: nat)
    requires i < photos <= |replies| * MEDIA_GROUP_MAX
    ensures i / 10 < |replies|
    ensures SendChunks(photos, replies).fates[i] <==>
            replies[i / 10].Acknowledged? && NoMigration(replies, i / 10)
    decreases photos
  {
    hide NoMigration, Migrates;
    MigratesWhen(replies[0]);
    if i < 10 {
      assert i / 10 == 0;
      NothingBefore(replies);
    } else {
      assert (i - 10) / 10 == i / 10 - 1;
      NoMigrationStep(replies, i / 10);
      if !Migrates(replies[0]) {
        PhotoSentExactlyWhen(photos - 10, replies[1..], i - 10);
        assert replies[1..][i / 10 - 1] == replies[i / 10];
      }
    }
  }

  /** A group of ten is tried exactly if it holds a photo and no group before it met a migration. */
  lemma {:induction false} GroupTriedExactlyWhen(photos: nat, replies: seq<Reply>, k: nat)
    requires photos <= |replies| * MEDIA_GROUP_MAX && k < |replies|
    ensures k < SendChunks(photos, replies).calls <==> 10 * k < photos && NoMigration(replies, k)
    decreases photos
  {
    hide NoMigration, Migrates;
    if photos > 0 {
      MigratesWhen(replies[0]);
      if k == 0 {
        NothingBefore(replies);
      } else {
        NoMigrationStep(replies, k);
        if !Migrates(replies[0]) {
          GroupTriedExactlyWhen(photos - Min(MEDIA_GROUP_MAX, photos), replies[1..], k - 1);
        }
      }
    }
  }

  lemma MigratesWhen(r: Reply)
    ensures Migrates(r) <==> r.Failed? && r.failure.migrates
  {
  }

  lemma NothingBefore(replies: seq<Reply>)
    ensures NoMigration(replies, 0)
  {
  }

  /** The failure reported: that of a migration, or else that of the first group that failed. */
  lemma {:induction false} ReportedFailure(photos: nat, replies: seq<Reply>, k: nat)
    requires |replies| * MEDIA_GROUP_MAX >= photos
    requires k < |replies| && 10 * k < photos && NoMigration(replies, k) && replies[k].Failed?
    ensures Migrates(replies[k]) ==> SendChunks(photos, replies).failure == Some(replies[k].failure)
    ensures (forall j | 0 <= j < |replies| :: !Migrates(replies[j]))
            && (forall j | 0 <= j < k :: replies[j].Acknowledged?)
            ==> SendChunks(photos, replies).failure == Some(replies[k].failure)
    decreases photos
  {
    if !Migrates(replies[0]) {
      var size, later := Min(MEDIA_GROUP_MAX, photos), replies[1..];
      FailureIsReported(photos - size, later);
      if k > 0 {
        NoMigrationStep(replies, k);
        assert later[k - 1] == replies[k] && forall j | 0 <= j < |later| :: later[j] == replies[j + 1];
        ReportedFailure(photos - size, later, k - 1);
      } else if forall j | 0 <= j < |replies| :: !Migrates(replies[j]) {
        NeverMigrated(photos - size, later);
      }
    }
  }

  lemma {:induction false} NeverMigrated(photos: nat, replies: seq<Reply>)
    requires |replies| * MEDIA_GROUP_MAX >= photos && forall j | 0 <= j < |replies| :: !Migrates(replies[j])
    ensures var f := SendChunks(photos, replies).failure; f.Some? ==> !f.value.migrates
    decreases photos
  {
    if photos > 0 {
      assert !Migrates(replies[0]);
      NeverMigrated(photos - Min(MEDIA_GROUP_MAX, photos), replies[1..]);
    }
  }

  // The first failure wins, except that a migration always does.
  function Combined(first: Option<Failure>, later: Option<Failure>): Option<Failure> {
    if later.Some? && later.value.migrates then later else if first.Some? then first else later
  }

  lemma ChunkStep(photos: seq<Photo>, size: nat, sent: bool, later: seq<bool>, fate: bool)
    requires size <= |photos| && |later| == |photos| - size
    ensures Pick(photos, Repeat(sent, size) + later, fate) ==
            (if sent == fate then photos[..size] else []) + Pick(photos[size..], later, fate)
  {
    assert photos == photos[..size] + photos[size..];
    PickConcat(photos[..size], Repeat(sent, size), photos[size..], later, fate);
    PickAll(photos[..size], fate);
    assert Repeat(sent, size) == Repeat(fate, size) || Repeat(sent, size) == Repeat(!fate, size);
  }

  /** The photos that failed and those that were sent, in order, and the failure reported. */
  datatype Photos = Photos(failed: seq<Photo>, sent: seq<Photo>, failure: Option<Failure>)

  function SendPhotos(photos: seq<Photo>, replies: seq<Reply>): Photos
    requires |replies| * MEDIA_GROUP_MAX >= |photos|
  {
    var b := SendChunks(|photos|, replies);
    Photos(Pick(photos, b.fates, false), Pick(photos, b.fates, true), b.failure)
  }

  // What a loop with this result so far and these photos left comes to.
  function Resumed(before: Photos, photos: seq<Photo>, replies: seq<Reply>): Photos
    requires |replies| * MEDIA_GROUP_MAX >= |photos|
  {
    var rest := SendPhotos(photos, replies);
    Photos(before.failed + rest.failed, before.sent + rest.sent, Combined(before.failure, rest.failure))
  }

  lemma MigrationStops(photos: seq<Photo>, replies: seq<Reply>)
    requires photos != [] && |replies| * MEDIA_GROUP_MAX >= |photos|
    requires replies[0].Failed? && replies[0].failure.migrates
    ensures SendPhotos(photos, replies) == Photos(photos, [], Some(replies[0].failure))
  {
    PickAll(photos, false);
    PickAll(photos, true);
  }

  lemma ChunkThenRest(photos: seq<Photo>, replies: seq<Reply>)
    requires photos != [] && |replies| * MEDIA_GROUP_MAX >= |photos|
    requires replies[0].Failed? ==> !replies[0].failure.migrates
    ensures var size, reply := Min(MEDIA_GROUP_MAX, |photos|), replies[0];
            var chunk, rest := photos[..size], SendPhotos(photos[size..], replies[1..]);
            SendPhotos(photos, replies) ==
            if reply.Acknowledged? then Photos(rest.failed, chunk + rest.sent, rest.failure)
            else Photos(chunk + rest.failed, rest.sent, Combined(Some(reply.failure), rest.failure))
  {
    hide Pick, Repeat;
    var size, sent := Min(MEDIA_GROUP_MAX, |photos|), replies[0].Acknowledged?;
    var rest := SendChunks(|photos| - size, replies[1..]);
    ChunkStep(photos, size, sent, rest.fates, true);
    ChunkStep(photos, size, sent, rest.fates, false);
    assert [] + Pick(photos[size..], rest.fates, sent) == Pick(photos[size..], rest.fates, sent);
    assert [] + Pick(photos[size..], rest.fates, !sent) == Pick(photos[size..], rest.fates, !sent);
  }

  lemma ResumeStep(before: Photos, photos: seq<Photo>, replies: seq<Reply>)
    requires photos != [] && |replies| * MEDIA_GROUP_MAX >= |photos|
    requires before.failure.Some? ==> !before.failure.value.migrates
    ensures var size, reply := Min(MEDIA_GROUP_MAX, |photos|), replies[0];
            var chunk, later := photos[..size], photos[size..];
            Resumed(before, photos, replies) ==
            if reply.Acknowledged? then Resumed(before.(sent := before.sent + chunk), later, replies[1..])
            else if reply.failure.migrates then Photos(before.failed + photos, before.sent, Some(reply.failure))
            else Resumed(before.(failed := before.failed + chunk,
                                 failure := Combined(before.failure, Some(reply.failure))), later, replies[1..])
  {
    var size, reply := Min(MEDIA_GROUP_MAX, |photos|), replies[0];
    if reply.Failed? && reply.failure.migrates {
      MigrationStops(photos, replies);
      assert before.sent + [] == before.sent;
    } else {
      hide SendPhotos;
      var rest := SendPhotos(photos[size..], replies[1..]);
      ChunkThenRest(photos, replies);
      assert before.failed + (photos[..size] + rest.failed) == before.failed + photos[..size] + rest.failed;
      assert before.sent + (photos[..size] + rest.sent) == before.sent + photos[..size] + rest.sent;
    }
  }

  lemma SendPhotosPartitions(photos: seq<Photo>, replies: seq<Reply>)
    requires |replies| * MEDIA_GROUP_MAX >= |photos|
    ensures var r := SendPhotos(photos, replies);
            && multiset(r.sent) + multiset(r.failed) == multiset(photos)
            && (r.failure.None? <==> r.failed == [])
  {
    var b := SendChunks(|photos|, replies);
    PickPartitions(photos, b.fates);
    FailureIsReported(|photos|, replies);
    PickEmptyExactlyWhen(photos, b.fates, false);
  }

  lemma {:induction false} PickEmptyExactlyWhen(photos: seq<Photo>, fates: seq<bool>, fate: bool)
    requires |photos| == |fates|
    ensures Pick(photos, fates, fate) == [] <==> fate !in fates
  {
    if photos != [] {
      PickEmptyExactlyWhen(photos[1..], fates[1..], fate);
    }
  }

  /**
   * The photo loop. Every photo ends in exactly one of the two lists: those of
   * a sent chunk, or those of the failed chunks and all that follow a migration.
   */
  method SendTelegramPhotos(photos: seq<Photo>, replies: seq<Reply>)
    returns (ok: bool, failedPhotos: seq<Photo>, sentPhotos: seq<Photo>, failure: Option<Failure>)
    requires |replies| * MEDIA_GROUP_MAX >= |photos|
    ensures Photos(failedPhotos, sentPhotos, failure) == SendPhotos(photos, replies)
    ensures multiset(sentPhotos) + multiset(failedPhotos) == multiset(photos)
    ensures ok == (failedPhotos == []) && ok == failure.None?
  {
    var done := SendAllChunks(photos, replies);
    SendPhotosPartitions(photos, replies);
    return done.failed == [], done.failed, done.sent, done.failure;
  }

  method SendAllChunks(photos: seq<Photo>, replies: seq<Reply>) returns (done: Photos)
    requires |replies| * MEDIA_GROUP_MAX >= |photos|
    ensures done == SendPhotos(photos, replies)
  {
    ghost var whole := SendPhotos(photos, replies);
    done := Photos([], [], None);
    assert [] + whole.failed == whole.failed && [] + whole.sent == whole.sent;
    var left, next := photos, replies;
    while left != []
      invariant |next| * MEDIA_GROUP_MAX >= |left|
      invariant done.failure.Some? ==> !done.failure.value.migrates
      invariant Resumed(done, left, next) == whole
      decreases |left|
    {
      done := SendChunk(done, left, next);
      if done.failure.Some? && done.failure.value.migrates {
        return;
      }
      left, next := left[Min(MEDIA_GROUP_MAX, |left|)..], next[1..];
    }
    NothingLeft(done, next);
  }

  lemma NothingLeft(done: Photos, replies: seq<Reply>)
    ensures Resumed(done, [], replies) == done
  {
    assert done.failed + [] == done.failed && done.sent + [] == done.sent;
  }

  // One group of at most ten; a migrated chat fails all that is left.
  method SendChunk(before: Photos, left: seq<Photo>, replies: seq<Reply>) returns (after: Photos)
    requires left != [] && |replies| * MEDIA_GROUP_MAX >= |left|
    requires before.failure.Some? ==> !before.failure.value.migrates
    ensures var size := Min(MEDIA_GROUP_MAX, |left|);
            Resumed(before, left, replies) ==
            if after.failure.Some? && after.failure.value.migrates then after
            else Resumed(after, left[size..], replies[1..])
  {
    ResumeStep(before, left, replies);
    var size := Min(MEDIA_GROUP_MAX, |left|);
    var chunk, reply := left[..size], replies[0];
    if reply.Acknowledged? {
      return before.(sent := before.sent + chunk);
    }
    after := before.(failed := before.failed + chunk);
    if before.failure.None? {
      after := after.(failure := Some(reply.failure));
    }
    if reply.failure.migrates {
      assert before.failed + chunk + left[size..] == before.failed + left;
      after := after.(failure := Some(reply.failure), failed := after.failed + left[size..]);
    }
  }
}
