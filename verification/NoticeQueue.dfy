/**
 * The bounded queue of first-bounce notices: a counting semaphore whose waits
 * can be given up, and the counters of admitted jobs and held mail bytes.
 */
module NoticeQueue {
  const MAX_ADMITTED_JOBS := 8
  const MAX_AUTHENTICATIONS := 2
  const MAX_HELD_MIME_BYTES := 4 * 1024 * 1024

  type JobId = nat

  // ---- The semaphore ------------------------------------------------------------------

  datatype Semaphore = Semaphore(active: nat, waiters: seq<JobId>)

  datatype Ticket = Granted | Refused | MustWait

  function AcquireSlot(s: Semaphore, id: JobId, aborted: bool): (Semaphore, Ticket) {
    if aborted then (s, Refused)
    else if s.active < MAX_AUTHENTICATIONS then (s.(active := s.active + 1), Granted)
    else (s.(waiters := s.waiters + [id]), MustWait)
  }

  function Without(ids: seq<JobId>, id: JobId): (r: seq<JobId>)
    ensures forall j :: j in r <==> j in ids && j != id
  {
    if ids == [] then [] else (if ids[0] == id then [] else [ids[0]]) + Without(ids[1..], id)
  }

  lemma NobodyWithout(id: JobId)
    ensures Without([], id) == []
  {
  }

  lemma WithoutFrom(ids: seq<JobId>, i: nat, id: JobId)
    requires i < |ids|
    ensures Without(ids[i..], id) ==
            if ids[i] == id then Without(ids[i + 1..], id) else [ids[i]] + Without(ids[i + 1..], id)
  {
    assert ids[i..][0] == ids[i] && ids[i..][1..] == ids[i + 1..];
    assert [] + Without(ids[i + 1..], id) == Without(ids[i + 1..], id);
  }

  // The slot goes to the first waiter, if there is one.
  function ReleaseSlot(s: Semaphore): Semaphore
    requires s.active > 0
  {
    if s.waiters == [] then s.(active := s.active - 1) else s.(waiters := s.waiters[1..])
  }

  class Slots {
    var active: nat
    var waiters: seq<JobId>

    constructor ()
      ensures Value() == Semaphore(0, [])
    {
      active, waiters := 0, [];
    }

    function Value(): Semaphore
      reads this
    {
      Semaphore(active, waiters)
    }

    method Acquire(id: JobId, aborted: bool) returns (ticket: Ticket)
      modifies this
      ensures (Value(), ticket) == AcquireSlot(old(Value()), id, aborted)
    {
      if aborted {
        return Refused;
      }
      if active < MAX_AUTHENTICATIONS {
        active := active + 1;
        return Granted;
      }
      waiters := waiters + [id];
      return MustWait;
    }

    // The waiter's signal fired: take it out of the line, wherever it stands.
    method Abandon(id: JobId)
      modifies this
      ensures Value() == old(Value()).(waiters := Without(old(waiters), id))
    {
      hide Without;
      var kept: seq<JobId> := [];
      var all := waiters;
      assert all[0..] == all && [] + Without(all, id) == Without(all, id);
      for i := 0 to |all|
        invariant kept + Without(all[i..], id) == Without(all, id)
        invariant waiters == all && active == old(active)
      {
        WithoutFrom(all, i, id);
        if all[i] != id {
          assert kept + ([all[i]] + Without(all[i + 1..], id)) == kept + [all[i]] + Without(all[i + 1..], id);
          kept := kept + [all[i]];
        }
      }
      waiters := kept;
      NobodyWithout(id);
      assert all[|all|..] == [] && kept + [] == kept;
    }

    method Release() returns (next: seq<JobId>)
      requires active > 0
      modifies this
      ensures Value() == ReleaseSlot(old(Value()))
      ensures next == if old(waiters) == [] then [] else [old(waiters)[0]]
    {
      active := active - 1;
      if waiters == [] {
        return [];
      }
      next := [waiters[0]];
      waiters := waiters[1..];
      active := active + 1;
    }
  }

  // ---- The queue ------------------------------------------------------------------------

  /** `Waiting` for a slot, `InFlight` holding one whether or not the job still waits for the result. */
  datatype Authentication = NotAsked | Waiting | InFlight(awaited: bool) | Over

  datatype Phase = Scheduled | Running | Returned | Settled

  datatype Job = Job(mime: nat, phase: Phase, auth: Authentication)

  datatype Queue = Queue(closed: bool, admittedJobs: int, heldMime: int, jobs: seq<Job>, slots: Semaphore)

  datatype Event =
    | Admit(offered: nat, namesSender: bool)
    | Start(job: JobId, tooOld: bool)
    | Authenticate(job: JobId, aborted: bool)
    | StopWaiting(job: JobId)
    | AuthenticationSettles(job: JobId)
    | RunnerReturns(job: JobId)
    | Settle(job: JobId)
    | Shutdown

  // Mail is held only with a sender to authenticate, and only if it fits.
  function HeldOf(q: Queue, offered: nat, namesSender: bool): nat {
    if namesSender && q.heldMime + offered <= MAX_HELD_MIME_BYTES then offered else 0
  }

  function With(q: Queue, id: JobId, job: Job): Queue
    requires id < |q.jobs|
  {
    q.(jobs := q.jobs[id := job])
  }

  // The job whose turn it is takes over the slot.
  function HandOver(q: Queue): Queue {
    if q.slots.active == 0 then q
    else
      var next := q.(slots := ReleaseSlot(q.slots));
      if q.slots.waiters == [] || q.slots.waiters[0] >= |q.jobs| then next
      else
        var id := q.slots.waiters[0];
        With(next, id, q.jobs[id].(auth := InFlight(true)))
  }

  // The shutdown signal: a wait is given up, and an authentication in flight is no longer waited for.
  function Stopped(job: Job): Job {
    if job.auth.Waiting? then job.(auth := Over)
    else if job.auth.InFlight? then job.(auth := InFlight(false))
    else job
  }

  function StopAll(jobs: seq<Job>): (r: seq<Job>)
    ensures |r| == |jobs| && forall i | 0 <= i < |r| :: r[i] == Stopped(jobs[i])
  {
    seq(|jobs|, i requires 0 <= i < |jobs| => Stopped(jobs[i]))
  }

  function Next(q: Queue, e: Event): Queue {
    if e.Shutdown? then q.(closed := true, jobs := StopAll(q.jobs), slots := q.slots.(waiters := []))
    else if e.Admit? then
      if q.closed || q.admittedJobs >= MAX_ADMITTED_JOBS then q
      else
        var mime := HeldOf(q, e.offered, e.namesSender);
        Queue(q.closed, q.admittedJobs + 1, q.heldMime + mime, q.jobs + [Job(mime, Scheduled, NotAsked)], q.slots)
    else if e.job >= |q.jobs| then q
    else
      var job := q.jobs[e.job];
      match e
      case Start(id, tooOld) =>
        if !job.phase.Scheduled? then q
        else With(q, id, job.(phase := if q.closed || tooOld then Returned else Running))
      case Authenticate(id, aborted) =>
        if q.closed || !job.phase.Running? || !job.auth.NotAsked? then q
        else
          var (slots, ticket) := AcquireSlot(q.slots, id, aborted);
          var auth := match ticket case Granted => InFlight(true) case Refused => Over case MustWait => Waiting;
          With(q.(slots := slots), id, job.(auth := auth))
      case StopWaiting(id) =>
        if job.auth.Waiting? then
          With(q.(slots := q.slots.(waiters := Without(q.slots.waiters, id))), id, job.(auth := Over))
        else if job.auth.InFlight? then With(q, id, job.(auth := InFlight(false)))
        else q
      case AuthenticationSettles(id) => if job.auth.InFlight? then HandOver(With(q, id, job.(auth := Over))) else q
      case RunnerReturns(id) =>
        if job.phase.Running? && !job.auth.Waiting? && job.auth != InFlight(true) then
          With(q, id, job.(phase := Returned)) else q
      case Settle(id) =>
        if job.phase.Returned? && !job.auth.InFlight? then
          With(q, id, job.(phase := Settled)).(admittedJobs := q.admittedJobs - 1, heldMime := q.heldMime - job.mime)
        else q
  }

  function Run(q: Queue, events: seq<Event>): Queue
    decreases events
  {
    if events == [] then q else Run(Next(q, events[0]), events[1..])
  }

  function Empty(): Queue {
    Queue(false, 0, 0, [], Semaphore(0, []))
  }

  // ---- The invariant -----------------------------------------------------------------------

  function Unsettled(jobs: seq<Job>): nat {
    if jobs == [] then 0 else Unsettled(jobs[..|jobs| - 1]) + if jobs[|jobs| - 1].phase.Settled? then 0 else 1
  }

  function HeldBytes(jobs: seq<Job>): nat {
    if jobs == [] then 0
    else HeldBytes(jobs[..|jobs| - 1]) + if jobs[|jobs| - 1].phase.Settled? then 0 else jobs[|jobs| - 1].mime
  }

  function InFlightCount(jobs: seq<Job>): nat {
    if jobs == [] then 0 else InFlightCount(jobs[..|jobs| - 1]) + if jobs[|jobs| - 1].auth.InFlight? then 1 else 0
  }

  lemma {:induction false} CountsUpdate(jobs: seq<Job>, id: JobId, job: Job)
    requires id < |jobs|
    ensures Unsettled(jobs[id := job]) + (if jobs[id].phase.Settled? then 0 else 1) ==
            Unsettled(jobs) + (if job.phase.Settled? then 0 else 1)
    ensures HeldBytes(jobs[id := job]) + (if jobs[id].phase.Settled? then 0 else jobs[id].mime) ==
            HeldBytes(jobs) + (if job.phase.Settled? then 0 else job.mime)
    ensures InFlightCount(jobs[id := job]) + (if jobs[id].auth.InFlight? then 1 else 0) ==
            InFlightCount(jobs) + (if job.auth.InFlight? then 1 else 0)
    decreases |jobs|
  {
    var n := |jobs| - 1;
    if id < n {
      assert jobs[id := job][..n] == jobs[..n][id := job];
      CountsUpdate(jobs[..n], id, job);
    } else {
      assert jobs[id := job][..n] == jobs[..n];
    }
  }

  lemma CountsAppend(jobs: seq<Job>, job: Job)
    ensures Unsettled(jobs + [job]) == Unsettled(jobs) + if job.phase.Settled? then 0 else 1
    ensures HeldBytes(jobs + [job]) == HeldBytes(jobs) + if job.phase.Settled? then 0 else job.mime
    ensures InFlightCount(jobs + [job]) == InFlightCount(jobs) + if job.auth.InFlight? then 1 else 0
  {
    assert (jobs + [job])[..|jobs|] == jobs;
  }

  // The line holds exactly the waiting jobs, each once.
  ghost predicate LineKept(q: Queue) {
    && (forall id | id in q.slots.waiters :: id < |q.jobs| && q.jobs[id].auth.Waiting?)
    && (forall id | 0 <= id < |q.jobs| && q.jobs[id].auth.Waiting? :: id in q.slots.waiters)
    && Distinct(q.slots.waiters)
  }

  ghost predicate JobKept(j: Job) {
    && (j.phase.Scheduled? ==> j.auth.NotAsked?)
    && (j.phase.Returned? || j.phase.Settled? ==> !j.auth.Waiting? && j.auth != InFlight(true))
    && (j.phase.Settled? ==> !j.auth.InFlight?)
  }

  // The counters say what the jobs say; `freed` slots were given back but not yet handed over.
  ghost predicate Balanced(q: Queue, freed: nat) {
    && q.admittedJobs == Unsettled(q.jobs) && q.admittedJobs <= MAX_ADMITTED_JOBS
    && q.heldMime == HeldBytes(q.jobs) && q.heldMime <= MAX_HELD_MIME_BYTES
    && q.slots.active == InFlightCount(q.jobs) + freed && q.slots.active <= MAX_AUTHENTICATIONS
    && (q.slots.waiters != [] ==> q.slots.active == MAX_AUTHENTICATIONS)
    && LineKept(q)
    && (forall i | 0 <= i < |q.jobs| :: JobKept(q.jobs[i]))
  }

  ghost predicate Invariant(q: Queue) {
    Balanced(q, 0)
  }

  predicate Distinct(ids: seq<JobId>) {
    forall i, j | 0 <= i < j < |ids| :: ids[i] != ids[j]
  }

  lemma DistinctCons(first: JobId, rest: seq<JobId>)
    requires Distinct(rest) && first !in rest
    ensures Distinct([first] + rest)
  {
  }

  lemma {:induction false} WithoutDistinct(ids: seq<JobId>, id: JobId)
    requires Distinct(ids)
    ensures Distinct(Without(ids, id))
  {
    if ids != [] {
      var rest := Without(ids[1..], id);
      WithoutDistinct(ids[1..], id);
      DistinctCons(ids[0], rest);
    }
  }

  // Changing one job that is not in line, before and after, keeps the line.
  lemma UpdateKeeps(q: Queue, id: JobId, job: Job, held: int, admitted: int)
    requires Invariant(q) && id < |q.jobs| && JobKept(job)
    requires job.auth.Waiting? == q.jobs[id].auth.Waiting? && job.auth.InFlight? == q.jobs[id].auth.InFlight?
    requires job.mime == q.jobs[id].mime
    requires if job.phase.Settled? && !q.jobs[id].phase.Settled?
             then admitted == q.admittedJobs - 1 && held == q.heldMime - job.mime
             else job.phase.Settled? == q.jobs[id].phase.Settled? && admitted == q.admittedJobs && held == q.heldMime
    ensures Invariant(With(q, id, job).(admittedJobs := admitted, heldMime := held))
  {
    CountsUpdate(q.jobs, id, job);
  }

  lemma AuthenticateKeeps(q: Queue, id: JobId, aborted: bool)
    requires Invariant(q)
    ensures Invariant(Next(q, Authenticate(id, aborted)))
  {
    if !q.closed && id < |q.jobs| && q.jobs[id].phase.Running? && q.jobs[id].auth.NotAsked? {
      var v := Next(q, Authenticate(id, aborted));
      CountsUpdate(q.jobs, id, v.jobs[id]);
      assert id !in q.slots.waiters;
      assert v.slots.waiters == q.slots.waiters || v.slots.waiters == q.slots.waiters + [id];
    }
  }

  lemma StopWaitingKeeps(q: Queue, id: JobId)
    requires Invariant(q)
    ensures Invariant(Next(q, StopWaiting(id)))
  {
    if id < |q.jobs| {
      var v := Next(q, StopWaiting(id));
      CountsUpdate(q.jobs, id, v.jobs[id]);
      if q.jobs[id].auth.Waiting? {
        WithoutDistinct(q.slots.waiters, id);
        assert v.slots.waiters == Without(q.slots.waiters, id);
        assert q.slots.waiters != [] by { assert id in q.slots.waiters; }
      }
    }
  }

  lemma HandOverKeeps(q: Queue)
    requires Balanced(q, 1)
    ensures Invariant(HandOver(q))
  {
    if q.slots.waiters != [] {
      var next := q.slots.waiters[0];
      assert next in q.slots.waiters;
      var v := HandOver(q);
      CountsUpdate(q.jobs, next, q.jobs[next].(auth := InFlight(true)));
      assert v.slots.waiters == q.slots.waiters[1..];
      FirstLeavesLine(q.slots.waiters);
    }
  }

  lemma FirstLeavesLine(ids: seq<JobId>)
    requires ids != [] && Distinct(ids)
    ensures forall w :: w in ids[1..] <==> w in ids && w != ids[0]
    ensures Distinct(ids[1..])
  {
    assert forall w :: w in ids <==> w == ids[0] || w in ids[1..];
  }

  lemma AuthenticationSettlesKeeps(q: Queue, id: JobId)
    requires Invariant(q)
    ensures Invariant(Next(q, AuthenticationSettles(id)))
  {
    if id < |q.jobs| && q.jobs[id].auth.InFlight? {
      var over := With(q, id, q.jobs[id].(auth := Over));
      CountsUpdate(q.jobs, id, over.jobs[id]);
      assert Balanced(over, 1);
      HandOverKeeps(over);
    }
  }

  lemma AdmitKeeps(q: Queue, offered: nat, namesSender: bool)
    requires Invariant(q)
    ensures Invariant(Next(q, Admit(offered, namesSender)))
  {
    hide Unsettled, HeldBytes, InFlightCount, Distinct;
    CountsAppend(q.jobs, Job(HeldOf(q, offered, namesSender), Scheduled, NotAsked));
  }

  lemma {:induction false} StopAllCounts(jobs: seq<Job>)
    ensures Unsettled(StopAll(jobs)) == Unsettled(jobs) && HeldBytes(StopAll(jobs)) == HeldBytes(jobs)
    ensures InFlightCount(StopAll(jobs)) == InFlightCount(jobs)
  {
    if jobs != [] {
      StopAllCounts(jobs[..|jobs| - 1]);
      assert StopAll(jobs)[..|jobs| - 1] == StopAll(jobs[..|jobs| - 1]);
    }
  }

  lemma ShutdownKeeps(q: Queue)
    requires Invariant(q)
    ensures Invariant(Next(q, Shutdown))
  {
    StopAllCounts(q.jobs);
    forall i | 0 <= i < |q.jobs| ensures JobKept(Stopped(q.jobs[i])) { assert JobKept(q.jobs[i]); }
  }

  lemma NextKeeps(q: Queue, e: Event)
    requires Invariant(q)
    ensures Invariant(Next(q, e))
  {
    match e
    case Admit(offered, namesSender) => AdmitKeeps(q, offered, namesSender);
    case Start(id, _) =>
      if id < |q.jobs| && q.jobs[id].phase.Scheduled? {
        UpdateKeeps(q, id, Next(q, e).jobs[id], q.heldMime, q.admittedJobs);
      }
    case Authenticate(id, aborted) => AuthenticateKeeps(q, id, aborted);
    case StopWaiting(id) => StopWaitingKeeps(q, id);
    case AuthenticationSettles(id) => AuthenticationSettlesKeeps(q, id);
    case RunnerReturns(id) =>
      if id < |q.jobs| && Next(q, e) != q {
        UpdateKeeps(q, id, Next(q, e).jobs[id], q.heldMime, q.admittedJobs);
      }
    case Settle(id) =>
      if id < |q.jobs| && Next(q, e) != q {
        UpdateKeeps(q, id, Next(q, e).jobs[id], q.heldMime - q.jobs[id].mime, q.admittedJobs - 1);
      }
    case Shutdown => ShutdownKeeps(q);
  }

  lemma {:induction false} RunKeeps(q: Queue, events: seq<Event>)
    requires Invariant(q)
    ensures Invariant(Run(q, events))
    decreases events
  {
    hide Next, Balanced;
    if events != [] {
      NextKeeps(q, events[0]);
      RunKeeps(Next(q, events[0]), events[1..]);
    }
  }

  // The bounds and balances, in plain terms.
  ghost predicate Promises(q: Queue) {
    && q.slots.active == InFlightCount(q.jobs) <= 2
    && (q.slots.waiters != [] ==> q.slots.active == 2)
    && q.admittedJobs == Unsettled(q.jobs) <= 8
    && q.heldMime == HeldBytes(q.jobs) <= 4_194_304
    && forall i | 0 <= i < |q.jobs| && q.jobs[i].auth.InFlight? :: !q.jobs[i].phase.Settled?
  }

  lemma InvariantPromises(q: Queue)
    requires Invariant(q)
    ensures Promises(q)
  {
    forall i | 0 <= i < |q.jobs| && q.jobs[i].auth.InFlight? ensures !q.jobs[i].phase.Settled? {
      assert JobKept(q.jobs[i]);
    }
  }

  /**
   * In every run: at most two authentications hold a slot, and somebody waits
   * only when both are taken; the counters equal the number of unsettled jobs
   * and the bytes they hold, within their bounds; and no job is settled, so no
   * mail is released, while its authentication still runs.
   */
  lemma EveryRun(events: seq<Event>)
    ensures Promises(Run(Empty(), events))
  {
    RunKeeps(Empty(), events);
    InvariantPromises(Run(Empty(), events));
  }

  // ---- First come, first served ---------------------------------------------------------------

  /** Everyone who ever joined the line, who was granted from it, and who gave up. */
  datatype History = History(joined: seq<JobId>, granted: seq<JobId>, gaveUp: set<JobId>)

  function Record(h: History, q: Queue, e: Event): History {
    var v := Next(q, e);
    if e.Authenticate? && |v.slots.waiters| > |q.slots.waiters| then h.(joined := h.joined + [e.job])
    else if e.StopWaiting? && e.job in q.slots.waiters then h.(gaveUp := h.gaveUp + {e.job})
    else if e.Shutdown? then h.(gaveUp := h.gaveUp + set id | id in q.slots.waiters)
    else if e.AuthenticationSettles? && v.slots.waiters != q.slots.waiters then
      h.(granted := h.granted + [q.slots.waiters[0]])
    else h
  }

  function RunHistory(h: History, q: Queue, events: seq<Event>): History
    decreases events
  {
    if events == [] then h else RunHistory(Record(h, q, events[0]), Next(q, events[0]), events[1..])
  }

  function Staying(ids: seq<JobId>, gaveUp: set<JobId>): seq<JobId> {
    if ids == [] then []
    else Staying(ids[..|ids| - 1], gaveUp) + if ids[|ids| - 1] in gaveUp then [] else [ids[|ids| - 1]]
  }

  // Those who joined and stayed are the granted ones, in order, followed by those still in line.
  ghost predicate InTurn(h: History, q: Queue) {
    && Staying(h.joined, h.gaveUp) == h.granted + q.slots.waiters
    && (forall id | id in h.joined :: id < |q.jobs| && !q.jobs[id].auth.NotAsked?)
    && (forall id | id in h.granted :: id < |q.jobs| && !q.jobs[id].auth.NotAsked? && !q.jobs[id].auth.Waiting?)
    && (forall id | id in h.gaveUp :: id < |q.jobs| && !q.jobs[id].auth.NotAsked? && !q.jobs[id].auth.Waiting?)
  }

  lemma {:induction false} StayingWithout(ids: seq<JobId>, gaveUp: set<JobId>, id: JobId)
    ensures Staying(ids, gaveUp + {id}) == Without(Staying(ids, gaveUp), id)
  {
    if ids != [] {
      var init, last := ids[..|ids| - 1], ids[|ids| - 1];
      StayingWithout(init, gaveUp, id);
      WithoutConcat(Staying(init, gaveUp), if last in gaveUp then [] else [last], id);
    }
  }

  lemma {:induction false} WithoutConcat(a: seq<JobId>, b: seq<JobId>, id: JobId)
    ensures Without(a + b, id) == Without(a, id) + Without(b, id)
  {
    if a == [] {
      assert a + b == b;
    } else {
      assert (a + b)[1..] == a[1..] + b;
      WithoutConcat(a[1..], b, id);
    }
  }

  lemma {:induction false} WithoutAbsent(ids: seq<JobId>, id: JobId)
    requires id !in ids
    ensures Without(ids, id) == ids
  {
    if ids != [] {
      WithoutAbsent(ids[1..], id);
    }
  }

  lemma StayingWith(joined: seq<JobId>, gaveUp: set<JobId>, id: JobId)
    requires id !in gaveUp
    ensures Staying(joined + [id], gaveUp) == Staying(joined, gaveUp) + [id]
  {
    assert (joined + [id])[..|joined|] == joined;
  }

  lemma JoinKeepsTurns(h: History, q: Queue, id: JobId, aborted: bool)
    requires Invariant(q) && InTurn(h, q)
    ensures InTurn(Record(h, q, Authenticate(id, aborted)), Next(q, Authenticate(id, aborted)))
  {
    hide Balanced, Staying, Without, StopAll, HandOver;
    if id < |q.jobs| && q.jobs[id].auth.NotAsked? {
      var v := Next(q, Authenticate(id, aborted));
      assert |v.jobs| == |q.jobs| && forall k | 0 <= k < |q.jobs| && k != id :: v.jobs[k] == q.jobs[k];
      if |v.slots.waiters| > |q.slots.waiters| {
        StayingWith(h.joined, h.gaveUp, id);
      }
      assert h.granted + (q.slots.waiters + [id]) == h.granted + q.slots.waiters + [id];
    }
  }

  lemma GivingUpKeepsTurns(h: History, q: Queue, id: JobId)
    requires Invariant(q) && InTurn(h, q)
    ensures InTurn(Record(h, q, StopWaiting(id)), Next(q, StopWaiting(id)))
  {
    hide Staying, Without;
    if id < |q.jobs| && q.jobs[id].auth.Waiting? {
      StayingWithout(h.joined, h.gaveUp, id);
      WithoutConcat(h.granted, q.slots.waiters, id);
      WithoutAbsent(h.granted, id);
    }
  }

  lemma GrantKeepsTurns(h: History, q: Queue, id: JobId)
    requires Invariant(q) && InTurn(h, q)
    ensures InTurn(Record(h, q, AuthenticationSettles(id)), Next(q, AuthenticationSettles(id)))
  {
    hide Staying;
    if id < |q.jobs| && q.jobs[id].auth.InFlight? && q.slots.waiters != [] {
      var next, rest := q.slots.waiters[0], q.slots.waiters[1..];
      assert next in q.slots.waiters;
      assert q.slots.waiters == [next] + rest;
      assert h.granted + ([next] + rest) == h.granted + [next] + rest;
    }
  }

  lemma FirstGivesUp(granted: seq<JobId>, line: seq<JobId>)
    requires line != [] && Distinct(line) && line[0] !in granted
    ensures Without(granted + line, line[0]) == granted + line[1..]
  {
    var first, rest := line[0], line[1..];
    FirstLeavesLine(line);
    WithoutConcat(granted, line, first);
    WithoutAbsent(granted, first);
    WithoutAbsent(rest, first);
    assert Without(line, first) == [] + Without(rest, first) == rest;
  }

  // When the whole line gives up, those granted are the ones who stayed.
  lemma {:induction false} AllGiveUp(joined: seq<JobId>, gaveUp: set<JobId>, granted: seq<JobId>, line: seq<JobId>)
    requires Staying(joined, gaveUp) == granted + line && Distinct(line) && forall id | id in line :: id !in granted
    ensures Staying(joined, gaveUp + set id | id in line) == granted
    decreases |line|
  {
    if line == [] {
      assert gaveUp + (set id | id in line) == gaveUp;
      assert granted + line == granted;
    } else {
      var first, rest := line[0], line[1..];
      FirstLeavesLine(line);
      StayingWithout(joined, gaveUp, first);
      FirstGivesUp(granted, line);
      AllGiveUp(joined, gaveUp + {first}, granted, rest);
      assert gaveUp + {first} + (set id | id in rest) == gaveUp + set id | id in line;
    }
  }

  lemma ShutdownKeepsTurns(h: History, q: Queue)
    requires Invariant(q) && InTurn(h, q)
    ensures InTurn(Record(h, q, Shutdown), Next(q, Shutdown))
  {
    AllGiveUp(h.joined, h.gaveUp, h.granted, q.slots.waiters);
    assert h.granted + [] == h.granted;
  }

  lemma TurnsKept(h: History, q: Queue, e: Event)
    requires Invariant(q) && InTurn(h, q)
    ensures InTurn(Record(h, q, e), Next(q, e))
  {
    if e.Authenticate? {
      JoinKeepsTurns(h, q, e.job, e.aborted);
    } else if e.StopWaiting? {
      GivingUpKeepsTurns(h, q, e.job);
    } else if e.AuthenticationSettles? {
      GrantKeepsTurns(h, q, e.job);
    } else if e.Shutdown? {
      ShutdownKeepsTurns(h, q);
    } else {
      OthersKeepTurns(h, q, e);
    }
  }

  lemma OthersKeepTurns(h: History, q: Queue, e: Event)
    requires Invariant(q) && InTurn(h, q) && !e.Authenticate? && !e.StopWaiting? && !e.AuthenticationSettles?
             && !e.Shutdown?
    ensures InTurn(Record(h, q, e), Next(q, e))
  {
    var v := Next(q, e);
    assert v.slots == q.slots && Record(h, q, e) == h;
    assert forall id | 0 <= id < |q.jobs| :: id < |v.jobs| && v.jobs[id].auth == q.jobs[id].auth;
  }

  lemma {:induction false} RunTurns(h: History, q: Queue, events: seq<Event>)
    requires Invariant(q) && InTurn(h, q)
    ensures InTurn(RunHistory(h, q, events), Run(q, events))
    decreases events
  {
    if events != [] {
      NextKeeps(q, events[0]);
      TurnsKept(h, q, events[0]);
      RunTurns(Record(h, q, events[0]), Next(q, events[0]), events[1..]);
    }
  }

  lemma NobodyWaitsAtFirst(h: History, q: Queue)
    requires q.jobs == [] && q.slots.waiters == [] && h.joined == [] && h.granted == [] && h.gaveUp == {}
    ensures InTurn(h, q)
  {
  }

  /** Slots are granted in the order of the waits, leaving out those given up. */
  lemma FirstComeFirstServed(h: History, q: Queue, events: seq<Event>)
    requires q == Empty() && h == History([], [], {})
    ensures var later := RunHistory(h, q, events);
            Staying(later.joined, later.gaveUp) == later.granted + Run(q, events).slots.waiters
  {
    NobodyWaitsAtFirst(h, q);
    hide Next, Record;
    RunTurns(h, q, events);
  }

  // ---- Shutdown -----------------------------------------------------------------------------------

  // No job is admitted, runs if it had not started, waits for a slot, or begins to authenticate.
  predicate NothingNew(before: Queue, after: Queue) {
    && after.closed && after.slots.waiters == [] && |after.jobs| == |before.jobs|
    && forall id | 0 <= id < |before.jobs| ::
         && (before.jobs[id].phase.Scheduled? ==> !after.jobs[id].phase.Running?)
         && !after.jobs[id].auth.Waiting? && after.jobs[id].auth != InFlight(true)
         && (after.jobs[id].auth.InFlight? ==> before.jobs[id].auth.InFlight?)
  }

  lemma {:induction false} ClosedStartsNothing(before: Queue, q: Queue, events: seq<Event>)
    requires Invariant(q) && NothingNew(before, q)
    ensures NothingNew(before, Run(q, events))
    decreases events
  {
    if events != [] {
      NextKeeps(q, events[0]);
      ClosedStep(before, q, events[0]);
      ClosedStartsNothing(before, Next(q, events[0]), events[1..]);
    }
  }

  lemma ClosedStep(before: Queue, q: Queue, e: Event)
    requires NothingNew(before, q)
    ensures NothingNew(before, Next(q, e))
  {
  }

  lemma ShutdownStartsNothing(q: Queue, later: seq<Event>)
    requires Invariant(q)
    ensures NothingNew(Next(q, Shutdown), Run(Next(q, Shutdown), later))
  {
    var closed := Next(q, Shutdown);
    NextKeeps(q, Shutdown);
    ClosedStartsNothing(closed, closed, later);
  }

  /**
   * After shutdown no job is admitted, none that had not started runs, nobody
   * waits for a slot, and no authentication begins; those in flight are no
   * longer waited for.
   */
  lemma ShutdownIsFinal(events: seq<Event>, q: Queue, later: seq<Event>)
    requires q == Run(Empty(), events)
    ensures NothingNew(Next(q, Shutdown), Run(Next(q, Shutdown), later))
  {
    RunKeeps(Empty(), events);
    ShutdownStartsNothing(q, later);
  }

  lemma StopWaitingIs(q: Queue, id: JobId)
    requires id < |q.jobs|
    ensures var waiters := if q.jobs[id].auth.Waiting? then Without(q.slots.waiters, id) else q.slots.waiters;
            Next(q, StopWaiting(id)) == q.(jobs := q.jobs[id := Stopped(q.jobs[id])],
                                           slots := q.slots.(waiters := waiters))
  {
    assert q.jobs[id := q.jobs[id]] == q.jobs;
  }

  // The first `id` jobs have been told of the shutdown.
  ghost predicate PartlyStopped(q: Queue, before: Queue, id: nat) {
    && q.closed && q.admittedJobs == before.admittedJobs && q.heldMime == before.heldMime
    && q.slots.active == before.slots.active && id <= |q.jobs| == |before.jobs|
    && q.jobs[..id] == StopAll(before.jobs)[..id] && q.jobs[id..] == before.jobs[id..]
    && forall w | w in q.slots.waiters :: id <= w < |before.jobs| && before.jobs[w].auth.Waiting?
  }

  lemma NoneStopped(before: Queue)
    requires Invariant(before)
    ensures PartlyStopped(before.(closed := true), before, 0)
  {
  }

  lemma StopsNext(q: Queue, before: Queue, id: nat)
    requires PartlyStopped(q, before, id) && id < |q.jobs|
    ensures |Next(q, StopWaiting(id)).jobs| == |q.jobs| && PartlyStopped(Next(q, StopWaiting(id)), before, id + 1)
  {
    hide Next, Without;
    var v := Next(q, StopWaiting(id));
    StopWaitingIs(q, id);
    assert q.jobs[id] == q.jobs[id..][0] == before.jobs[id];
    assert v.jobs[..id + 1] == StopAll(before.jobs)[..id + 1];
    assert v.jobs[id + 1..] == q.jobs[id..][1..] == before.jobs[id + 1..];
  }

  lemma AllStopped(q: Queue, before: Queue)
    requires PartlyStopped(q, before, |q.jobs|)
    ensures q == Next(before, Shutdown)
  {
    var n := |q.jobs|;
    assert q.jobs == q.jobs[..n] == StopAll(before.jobs)[..n] == StopAll(before.jobs);
    FirstIsInLine(q.slots.waiters);
  }

  lemma FirstIsInLine(ids: seq<JobId>)
    ensures ids != [] ==> ids[0] in ids
  {
  }

  // ---- The counters in memory ---------------------------------------------------------------------

  class ActivationNoticeQueue {
    var closed: bool
    var admittedJobs: int
    var heldMime: int
    var jobs: seq<Job>
    const authSlots: Slots

    constructor ()
      ensures Value() == Empty() && fresh(authSlots)
    {
      closed, admittedJobs, heldMime, jobs := false, 0, 0, [];
      authSlots := new Slots();
    }

    function Value(): Queue
      reads this, authSlots
    {
      Queue(closed, admittedJobs, heldMime, jobs, authSlots.Value())
    }

    method Admit(offered: nat, namesSender: bool) returns (admitted: bool)
      modifies this
      ensures Value() == Next(old(Value()), Event.Admit(offered, namesSender))
      ensures admitted == (!old(closed) && old(admittedJobs) < MAX_ADMITTED_JOBS)
    {
      if closed || admittedJobs >= MAX_ADMITTED_JOBS {
        return false;
      }
      var mime := 0;
      if namesSender && heldMime + offered <= MAX_HELD_MIME_BYTES {
        mime := offered;
      }
      admittedJobs := admittedJobs + 1;
      heldMime := heldMime + mime;
      jobs := jobs + [Job(mime, Scheduled, NotAsked)];
      return true;
    }

    method Authenticate(id: JobId, aborted: bool)
      requires id < |jobs| && jobs[id].phase.Running? && jobs[id].auth.NotAsked?
      modifies this, authSlots
      ensures Value() == Next(old(Value()), Event.Authenticate(id, aborted))
    {
      if closed {
        return;
      }
      var ticket := authSlots.Acquire(id, aborted);
      var auth := if ticket.Granted? then InFlight(true) else if ticket.Refused? then Over else Waiting;
      jobs := jobs[id := jobs[id].(auth := auth)];
    }

    // The budget ran out or shutdown began: the job goes on, an authentication in flight keeps its slot.
    method StopWaiting(id: JobId)
      requires id < |jobs|
      modifies this, authSlots
      ensures Value() == Next(old(Value()), Event.StopWaiting(id))
    {
      if jobs[id].auth.Waiting? {
        authSlots.Abandon(id);
        jobs := jobs[id := jobs[id].(auth := Over)];
      } else if jobs[id].auth.InFlight? {
        jobs := jobs[id := jobs[id].(auth := InFlight(false))];
      }
    }

    // The shutdown signal reaches every job that waits, in turn.
    method Shutdown()
      requires Invariant(Value())
      modifies this, authSlots
      ensures Value() == Next(old(Value()), Event.Shutdown)
    {
      hide Next, Balanced, PartlyStopped;
      ghost var before := Value();
      closed := true;
      NoneStopped(before);
      for id := 0 to |jobs|
        invariant |jobs| == |before.jobs| && PartlyStopped(Value(), before, id)
      {
        StopsNext(Value(), before, id);
        StopWaiting(id);
      }
      AllStopped(Value(), before);
    }

    method AuthenticationSettled(id: JobId)
      requires id < |jobs| && jobs[id].auth.InFlight? && authSlots.active > 0
      modifies this, authSlots
      ensures Value() == Next(old(Value()), AuthenticationSettles(id))
    {
      jobs := jobs[id := jobs[id].(auth := Over)];
      var next := authSlots.Release();
      if next != [] && next[0] < |jobs| {
        jobs := jobs[next[0] := jobs[next[0]].(auth := InFlight(true))];
      }
    }

    // The job's promise settles: its runner returned and no authentication of it runs any more.
    method SettleJob(id: JobId)
      requires id < |jobs| && jobs[id].phase.Returned? && !jobs[id].auth.InFlight?
      modifies this
      ensures Value() == Next(old(Value()), Settle(id))
    {
      admittedJobs := admittedJobs - 1;
      heldMime := heldMime - jobs[id].mime;
      jobs := jobs[id := jobs[id].(phase := Settled)];
    }
  }
}
