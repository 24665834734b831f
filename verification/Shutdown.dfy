/**
 * The shutdown sequence as a machine: a signal starts it, steps complete or
 * fail in any order, a watchdog may fire at any time, and the handler goes on
 * when what it waits for has settled.
 */
module Shutdown {
  datatype Component = Http | Bot | Polling | Retry | Drain | Notices | Db

  datatype Progress = Idle | Pending | Fulfilled | Rejected

  /** Where the handler waits. */
  datatype Stage = NotStarted | ClosingInputs | Draining | AwaitingNotices | ClosingDb | Over

  datatype State = State(
    stage: Stage, started: bool, exited: bool, drained: bool, watchdogArmed: bool, sessionDestroyed: bool,
    progress: map<Component, Progress>, pending: set<Component>, exits: seq<int>)

  datatype Event =
    | Signal(beginThrows: bool)
    | Settle(component: Component, ok: bool)
    | Watchdog
    | Resume(destroyThrows: bool)

  function AllIdle(): map<Component, Progress> {
    map[Http := Idle, Bot := Idle, Polling := Idle, Retry := Idle, Drain := Idle, Notices := Idle, Db := Idle]
  }

  function Initial(): State {
    State(NotStarted, false, false, true, false, false, AllIdle(), {}, [])
  }

  function Of(s: State, c: Component): Progress {
    if c in s.progress then s.progress[c] else Idle
  }

  function Begun(s: State, c: Component): State {
    s.(progress := s.progress[c := Pending], pending := s.pending + {c})
  }

  function Finish(s: State, code: int): State {
    if s.exited then s.(stage := Over) else s.(stage := Over, exited := true, exits := s.exits + [code])
  }

  // The error handler: the watchdog is cleared, and the process ends with 1.
  function Caught(s: State): State {
    if s.exited then s.(stage := Over) else Finish(s.(watchdogArmed := false), 1)
  }

  function OnSignal(s: State, beginThrows: bool): State {
    if s.started then s
    else
      var begun := s.(started := true, watchdogArmed := true);
      if beginThrows then Caught(begun)
      else Begun(Begun(Begun(Begun(Begun(begun, Notices), Polling), Retry), Http), Bot).(stage := ClosingInputs)
  }

  // A failed stop of the bot is only logged; a failed drain is remembered. Both count as done.
  function OnSettle(s: State, c: Component, ok: bool): State {
    if !Of(s, c).Pending? then s
    else
      var result := if ok || c.Bot? || c.Drain? then Fulfilled else Rejected;
      s.(progress := s.progress[c := result], pending := s.pending - {c}, drained := s.drained && (ok || !c.Drain?))
  }

  function OnWatchdog(s: State): State {
    if !s.watchdogArmed || s.exited then s else s.(exited := true, exits := s.exits + [1])
  }

  datatype Wait = Blocked | Failed | Passed

  // Waiting for several promises: it fails with the first rejection and passes when all are fulfilled.
  function WaitFor(s: State, cs: set<Component>): Wait {
    if exists c | c in cs :: Of(s, c).Rejected? then Failed
    else if forall c | c in cs :: Of(s, c).Fulfilled? then Passed
    else Blocked
  }

  // What the handler awaits at each stage.
  function Awaited(stage: Stage): set<Component> {
    match stage
    case ClosingInputs => {Http, Bot}
    case Draining => {Polling, Drain, Retry}
    case AwaitingNotices => {Notices}
    case ClosingDb => {Db}
    case _ => {}
  }

  // The handler goes on after its await, unless the process is already ending.
  function Advance(s: State, destroyThrows: bool): State {
    if s.exited then s.(stage := Over)
    else match s.stage
      case ClosingInputs => Begun(s, Drain).(stage := Draining)
      case Draining => if s.drained then s.(stage := AwaitingNotices) else Finish(s, 1)
      case AwaitingNotices =>
        if destroyThrows then Caught(s) else Begun(s.(sessionDestroyed := true), Db).(stage := ClosingDb)
      case ClosingDb => Finish(s.(watchdogArmed := false), 0)
      case _ => s
  }

  function OnResume(s: State, destroyThrows: bool): State {
    if s.stage.NotStarted? || s.stage.Over? then s
    else match WaitFor(s, Awaited(s.stage))
      case Blocked => s
      case Failed => Caught(s)
      case Passed => Advance(s, destroyThrows)
  }

  function Next(s: State, e: Event): State {
    match e
    case Signal(beginThrows) => OnSignal(s, beginThrows)
    case Settle(c, ok) => OnSettle(s, c, ok)
    case Watchdog => OnWatchdog(s)
    case Resume(destroyThrows) => OnResume(s, destroyThrows)
  }

  function Run(s: State, events: seq<Event>): State
    decreases events
  {
    if events == [] then s else Run(Next(s, events[0]), events[1..])
  }

  // ---- The invariant ------------------------------------------------------------------

  // All work that uses the database has ended, and was not cut.
  predicate WorkIsDone(s: State) {
    && Of(s, Http).Fulfilled? && Of(s, Bot).Fulfilled? && Of(s, Polling).Fulfilled? && Of(s, Retry).Fulfilled?
    && Of(s, Drain).Fulfilled? && s.drained && Of(s, Notices).Fulfilled?
  }

  predicate Invariant(s: State) {
    && (s.exits == [] || s.exits == [0] || s.exits == [1])
    && s.exited == (s.exits != [])
    && (s.stage.Over? ==> s.exited)
    && (!s.started ==> s.stage.NotStarted?)
    && (s.stage.ClosingInputs? ==> Of(s, Drain).Idle?)
    && (s.stage.NotStarted? ==> !s.started && s.progress == AllIdle() && !s.sessionDestroyed)
    && (!Of(s, Db).Idle? ==> WorkIsDone(s) && s.sessionDestroyed)
    && (s.stage.AwaitingNotices? ==>
          && Of(s, Http).Fulfilled? && Of(s, Bot).Fulfilled? && Of(s, Polling).Fulfilled? && Of(s, Retry).Fulfilled?
          && Of(s, Drain).Fulfilled? && s.drained)
    && (s.stage.Draining? ==> Of(s, Http).Fulfilled? && Of(s, Bot).Fulfilled?)
    && (s.stage.ClosingDb? ==> !Of(s, Db).Idle?)
    && (s.sessionDestroyed ==> !Of(s, Db).Idle?)
    && (0 in s.exits ==> Of(s, Db).Fulfilled?)
    && (!s.drained ==> Of(s, Drain).Fulfilled?)
    && (forall c :: c in s.pending <==> Of(s, c).Pending?)
  }

  lemma NextKeeps(s: State, e: Event)
    requires Invariant(s)
    ensures Invariant(Next(s, e))
  {
    match e
    case Signal(beginThrows) => SignalKeeps(s, beginThrows);
    case Settle(c, ok) =>
    case Watchdog =>
    case Resume(destroyThrows) => ResumeKeeps(s, destroyThrows);
  }

  lemma SignalKeeps(s: State, beginThrows: bool)
    requires Invariant(s)
    ensures Invariant(OnSignal(s, beginThrows))
  {
    if !s.started {
      assert Of(s, Db).Idle? && Of(s, Drain).Idle? && s.drained;
    }
  }

  lemma AdvanceKeeps(s: State, destroyThrows: bool)
    requires Invariant(s) && !s.stage.NotStarted? && !s.stage.Over?
    requires forall c | c in Awaited(s.stage) :: Of(s, c).Fulfilled?
    ensures Invariant(Advance(s, destroyThrows))
  {
    assert s.stage.ClosingInputs? ==> Http in Awaited(s.stage) && Bot in Awaited(s.stage);
    assert s.stage.Draining? ==> Polling in Awaited(s.stage) && Drain in Awaited(s.stage) && Retry in Awaited(s.stage);
    assert s.stage.AwaitingNotices? ==> Notices in Awaited(s.stage);
    assert s.stage.ClosingDb? ==> Db in Awaited(s.stage);
  }

  lemma CaughtKeeps(s: State)
    requires Invariant(s) && s.started
    ensures Invariant(Caught(s))
  {
  }

  lemma ResumeKeeps(s: State, destroyThrows: bool)
    requires Invariant(s)
    ensures Invariant(OnResume(s, destroyThrows))
  {
    if !s.stage.NotStarted? && !s.stage.Over? {
      CaughtKeeps(s);
      if WaitFor(s, Awaited(s.stage)).Passed? {
        AdvanceKeeps(s, destroyThrows);
      }
    }
  }

  lemma {:induction false} RunKeeps(s: State, events: seq<Event>)
    requires Invariant(s)
    ensures Invariant(Run(s, events))
    decreases events
  {
    if events != [] {
      NextKeeps(s, events[0]);
      RunKeeps(Next(s, events[0]), events[1..]);
    }
  }

  /**
   * In every ordering of completions, failures, repeated signals and the
   * watchdog: the process exits at most once; the database begins to close only
   * when HTTP, bot, polling, retries, deliveries and notices are done and the
   * drain was not cut; exit code 0 means that all of it and the closing itself
   * finished; and what a missed deadline reports is exactly what is unfinished.
   */
  lemma EveryRun(events: seq<Event>)
    ensures var s := Run(Initial(), events);
            && |s.exits| <= 1
            && (!Of(s, Db).Idle? ==> WorkIsDone(s))
            && (s.exits == [0] ==> WorkIsDone(s) && s.sessionDestroyed && Of(s, Db).Fulfilled?)
            && (forall c :: c in s.pending <==> Of(s, c).Pending?)
  {
    RunKeeps(Initial(), events);
  }

  lemma StepAfterExit(s: State, e: Event)
    requires s.exited
    ensures var next := Next(s, e);
            && next.exited && next.exits == s.exits && next.sessionDestroyed == s.sessionDestroyed
            && (Of(s, Db).Idle? ==> Of(next, Db).Idle?)
  {
    match e
    case Signal(_) =>
    case Settle(_, _) =>
    case Watchdog =>
    case Resume(_) =>
  }

  /** After the exit nothing is torn down any more: no session store destroyed, no database closed. */
  lemma {:induction false} NothingAfterExit(s: State, events: seq<Event>)
    requires s.exited
    ensures var later := Run(s, events);
            && later.exits == s.exits && later.sessionDestroyed == s.sessionDestroyed
            && (Of(s, Db).Idle? ==> Of(later, Db).Idle?)
    decreases events
  {
    if events != [] {
      StepAfterExit(s, events[0]);
      NothingAfterExit(Next(s, events[0]), events[1..]);
    }
  }

  // A run that is not over has its watchdog armed, so the deadline always ends it.
  predicate Guarded(s: State) {
    s.started && !s.exited ==> s.watchdogArmed
  }

  lemma {:induction false} AlwaysGuarded(s: State, events: seq<Event>)
    requires Guarded(s)
    ensures Guarded(Run(s, events))
    decreases events
  {
    if events != [] {
      AlwaysGuarded(Next(s, events[0]), events[1..]);
    }
  }

  /** A started shutdown that is still going when the watchdog fires exits with 1. */
  lemma DeadlineEndsIt(events: seq<Event>)
    ensures var s := Run(Initial(), events);
            s.started && !s.exited ==> Next(s, Watchdog).exits == [1]
  {
    AlwaysGuarded(Initial(), events);
    RunKeeps(Initial(), events);
  }

  // ---- How it goes on ----------------------------------------------------------------------

  /** A step that fails counts as done if it is the bot or the drain; the drain is then remembered as cut. */
  lemma SettledExactlyWhen(s: State, c: Component, ok: bool)
    requires Of(s, c) == Pending
    ensures var next := Next(s, Settle(c, ok));
            && Of(next, c) == (if ok || c in {Bot, Drain} then Fulfilled else Rejected)
            && (next.drained <==> s.drained && (ok || c != Drain)) && c !in next.pending
            && (forall other | other != c ::
                  Of(next, other) == Of(s, other) && (other in next.pending <==> other in s.pending))
            && next.stage == s.stage && next.exits == s.exits
  {
  }

  // The process ends with this code.
  predicate Exits(s: State, next: State, code: int) {
    next.exits == s.exits + [code] && next.exited && next.stage == Over
  }

  /**
   * What the handler does between two awaits, while the process is not ending.
   * It waits until one of the steps it awaits has failed, and then exits with
   * 1, or until all are done; then it drains, waits for the notices, destroys
   * the session store and closes the database, and exits with 0.
   */
  lemma ResumedExactlyWhen(s: State, destroyThrows: bool)
    requires s.started && !s.exited
    ensures var next := Next(s, Resume(destroyThrows));
            && (s.stage == ClosingInputs ==>
                  if Of(s, Http) == Rejected || Of(s, Bot) == Rejected then Exits(s, next, 1)
                  else if Of(s, Http) == Of(s, Bot) == Fulfilled
                  then next.stage == Draining && Of(next, Drain) == Pending
                  else next == s)
            && (s.stage == Draining ==>
                  if Of(s, Polling) == Rejected || Of(s, Drain) == Rejected || Of(s, Retry) == Rejected then
                    Exits(s, next, 1)
                  else if Of(s, Polling) == Of(s, Drain) == Of(s, Retry) == Fulfilled then
                    if s.drained then next == s.(stage := AwaitingNotices) else Exits(s, next, 1)
                  else next == s)
            && (s.stage == AwaitingNotices ==>
                  if Of(s, Notices) == Rejected || (Of(s, Notices) == Fulfilled && destroyThrows) then Exits(s, next, 1)
                  else if Of(s, Notices) == Fulfilled then
                    next.stage == ClosingDb && next.sessionDestroyed && Of(next, Db) == Pending
                  else next == s)
            && (s.stage == ClosingDb ==>
                  if Of(s, Db) == Rejected then Exits(s, next, 1)
                  else if Of(s, Db) == Fulfilled then Exits(s, next, 0)
                  else next == s)
            && (s.stage == NotStarted || s.stage == Over ==> next == s)
  {
    assert Http in {Http, Bot} && Bot in {Http, Bot};
    var drains := {Polling, Drain, Retry};
    assert Polling in drains && Drain in drains && Retry in drains;
    assert Notices in {Notices} && Db in {Db};
  }

  // Everything the handler awaits at its stage has begun.
  predicate AwaitsBegun(s: State) {
    && (forall c | c in Awaited(s.stage) :: !Of(s, c).Idle?)
    && (s.started && !s.exited ==> !s.stage.NotStarted? && !s.stage.Over?)
    && (!s.stage.NotStarted? && !s.stage.Over? ==>
          !Of(s, Http).Idle? && !Of(s, Bot).Idle? && !Of(s, Polling).Idle? && !Of(s, Retry).Idle?
          && !Of(s, Notices).Idle?)
    && (forall c :: Of(s, c).Pending? ==> c in s.pending)
  }

  // A step that begins is pending, and no other step changes.
  lemma BegunStays(s: State, c: Component)
    ensures forall d :: Of(Begun(s, c), d) == if d == c then Pending else Of(s, d)
    ensures Begun(s, c) == s.(progress := Begun(s, c).progress, pending := s.pending + {c})
  {
  }

  lemma SameProgress(s: State, t: State)
    requires s.progress == t.progress
    ensures forall c :: Of(s, c) == Of(t, c)
  {
  }

  lemma SignalBegins(s: State, beginThrows: bool)
    requires AwaitsBegun(s) && !s.started && s.stage.NotStarted?
    ensures AwaitsBegun(OnSignal(s, beginThrows))
  {
    hide Of, Begun;
    var begun, next := s.(started := true, watchdogArmed := true), OnSignal(s, beginThrows);
    SameProgress(s, begun);
    if beginThrows {
      SameProgress(s, next);
    } else {
      var a := Begun(begun, Notices);
      var b := Begun(a, Polling);
      var c := Begun(b, Retry);
      var d := Begun(c, Http);
      var e := Begun(d, Bot);
      BegunStays(begun, Notices);
      BegunStays(a, Polling);
      BegunStays(b, Retry);
      BegunStays(c, Http);
      BegunStays(d, Bot);
      SameProgress(e, next);
    }
  }

  lemma DrainBegins(s: State, destroyThrows: bool)
    requires AwaitsBegun(s) && s.stage.ClosingInputs? && !s.exited
    ensures AwaitsBegun(Advance(s, destroyThrows))
  {
    hide Of, Begun;
    BegunStays(s, Drain);
    SameProgress(Begun(s, Drain), Advance(s, destroyThrows));
  }

  lemma DbBegins(s: State)
    requires AwaitsBegun(s) && s.stage.AwaitingNotices? && !s.exited
    ensures AwaitsBegun(Advance(s, false))
  {
    hide Of, Begun;
    var destroyed := s.(sessionDestroyed := true);
    SameProgress(s, destroyed);
    BegunStays(destroyed, Db);
    SameProgress(Begun(destroyed, Db), Advance(s, false));
  }

  lemma AdvanceBegins(s: State, destroyThrows: bool)
    requires AwaitsBegun(s) && !s.stage.NotStarted? && !s.stage.Over?
    ensures AwaitsBegun(Advance(s, destroyThrows))
  {
    hide Of, Begun;
    if s.stage.ClosingInputs? && !s.exited {
      DrainBegins(s, destroyThrows);
    } else if s.stage.AwaitingNotices? && !s.exited && !destroyThrows {
      DbBegins(s);
    } else {
      SameProgress(s, Advance(s, destroyThrows));
    }
  }

  lemma CaughtBegins(s: State)
    requires AwaitsBegun(s)
    ensures AwaitsBegun(Caught(s))
  {
    hide Of;
    SameProgress(s, Caught(s));
  }

  lemma ResumeBegins(s: State, destroyThrows: bool)
    requires AwaitsBegun(s)
    ensures AwaitsBegun(OnResume(s, destroyThrows))
  {
    hide AwaitsBegun, Advance, Caught, WaitFor;
    CaughtBegins(s);
    if !s.stage.NotStarted? && !s.stage.Over? {
      AdvanceBegins(s, destroyThrows);
    }
  }

  lemma BegunKeeps(s: State, e: Event)
    requires AwaitsBegun(s) && (!s.started ==> s.stage.NotStarted?)
    ensures AwaitsBegun(Next(s, e)) && (!Next(s, e).started ==> Next(s, e).stage.NotStarted?)
  {
    match e
    case Signal(beginThrows) => if !s.started { SignalBegins(s, beginThrows); }
    case Settle(c, ok) =>
    case Watchdog =>
    case Resume(destroyThrows) => ResumeBegins(s, destroyThrows);
  }

  lemma {:induction false} AlwaysBegun(s: State, events: seq<Event>)
    requires AwaitsBegun(s) && (!s.started ==> s.stage.NotStarted?)
    ensures AwaitsBegun(Run(s, events))
    decreases events
  {
    hide AwaitsBegun, Next;
    if events != [] {
      BegunKeeps(s, events[0]);
      AlwaysBegun(Next(s, events[0]), events[1..]);
    }
  }

  /** A started shutdown never hangs by itself: with nothing pending, the handler goes on. */
  lemma NeverStuck(events: seq<Event>, destroyThrows: bool)
    ensures var s := Run(Initial(), events);
            s.started && !s.exited && s.pending == {} ==> Next(s, Resume(destroyThrows)).stage != s.stage
  {
    AlwaysBegun(Initial(), events);
    hide Run;
    var s := Run(Initial(), events);
    if s.started && !s.exited && s.pending == {} {
      assert forall c :: !Of(s, c).Pending?;
      ResumedExactlyWhen(s, destroyThrows);
      assert Http in {Http, Bot} && Bot in {Http, Bot};
      var drains := {Polling, Drain, Retry};
      assert Polling in drains && Drain in drains && Retry in drains;
      assert Notices in {Notices} && Db in {Db};
    }
  }

  // Nothing fails and no deadline passes.
  predicate GoesWell(e: Event) {
    match e
    case Signal(beginThrows) => !beginThrows
    case Settle(_, ok) => ok
    case Watchdog => false
    case Resume(destroyThrows) => !destroyThrows
  }

  predicate Well(s: State) {
    (s.exits == [] || s.exits == [0]) && s.exited == (s.exits != []) && s.drained && forall c :: !Of(s, c).Rejected?
  }

  lemma WellKeeps(s: State, e: Event)
    requires Well(s) && GoesWell(e)
    ensures Well(Next(s, e))
  {
    hide Of, Begun;
    match e
    case Signal(_) => SignalStaysWell(s);
    case Settle(c, _) => SettleStaysWell(s, c);
    case Resume(_) =>
      SameProgress(s, s.(sessionDestroyed := true));
      BegunStays(s, Drain);
      BegunStays(s.(sessionDestroyed := true), Db);
      var next := Next(s, e);
      if next.stage == Draining && s.stage != Draining {
        SameProgress(Begun(s, Drain), next);
      } else if next.stage == ClosingDb && s.stage != ClosingDb {
        SameProgress(Begun(s.(sessionDestroyed := true), Db), next);
      } else {
        SameProgress(s, next);
      }
  }

  lemma SettleStaysWell(s: State, c: Component)
    requires Well(s)
    ensures Well(OnSettle(s, c, true))
  {
    if Of(s, c).Pending? {
      SettledExactlyWhen(s, c, true);
      var next := OnSettle(s, c, true);
      forall d ensures !Of(next, d).Rejected? { assert d != c ==> Of(next, d) == Of(s, d); }
    }
  }

  lemma SignalStaysWell(s: State)
    requires Well(s)
    ensures Well(OnSignal(s, false))
  {
    hide Of, Begun;
    if !s.started {
      var begun := s.(started := true, watchdogArmed := true);
      SameProgress(s, begun);
      var a := Begun(begun, Notices);
      var b := Begun(a, Polling);
      var c := Begun(b, Retry);
      var d := Begun(c, Http);
      BegunStays(begun, Notices);
      BegunStays(a, Polling);
      BegunStays(b, Retry);
      BegunStays(c, Http);
      BegunStays(d, Bot);
      SameProgress(Begun(d, Bot), OnSignal(s, false));
    }
  }

  lemma {:induction false} StaysWell(s: State, events: seq<Event>)
    requires Well(s) && forall e | e in events :: GoesWell(e)
    ensures Well(Run(s, events))
    decreases events
  {
    hide Well, Next;
    if events != [] {
      assert GoesWell(events[0]);
      WellKeeps(s, events[0]);
      StaysWell(Next(s, events[0]), events[1..]);
    }
  }

  /** When nothing fails and the deadline does not pass, the process does not exit with 1, in any ordering. */
  lemma CleanRunExitsWithZero(events: seq<Event>)
    requires forall e | e in events :: GoesWell(e)
    ensures var s := Run(Initial(), events); s.exits == [] || s.exits == [0]
  {
    StaysWell(Initial(), events);
  }

  // ---- The handler's variables -----------------------------------------------------------

  class Handler {
    var stage: Stage
    var started: bool
    var exited: bool
    var drained: bool
    var watchdogArmed: bool
    var sessionDestroyed: bool
    var progress: map<Component, Progress>
    var pending: set<Component>
    var exits: seq<int>

    constructor ()
      ensures Value() == Initial()
    {
      stage, started, exited, drained, watchdogArmed, sessionDestroyed := NotStarted, false, false, true, false, false;
      progress, pending, exits := AllIdle(), {}, [];
    }

    function Value(): State
      reads this
    {
      State(stage, started, exited, drained, watchdogArmed, sessionDestroyed, progress, pending, exits)
    }

    method Track(c: Component)
      modifies this`progress, this`pending
      ensures Value() == Begun(old(Value()), c)
    {
      progress := progress[c := Pending];
      pending := pending + {c};
    }

    method Exit(code: int)
      modifies this`stage, this`exited, this`exits
      ensures Value() == Finish(old(Value()), code)
    {
      stage := Over;
      if exited {
        return;
      }
      exited := true;
      exits := exits + [code];
    }

    method OnError()
      modifies this
      ensures Value() == Caught(old(Value()))
    {
      if !exited {
        watchdogArmed := false;
      }
      Exit(1);
    }

    method HandleSignal(beginThrows: bool)
      modifies this
      ensures Value() == OnSignal(old(Value()), beginThrows)
    {
      if started {
        return;
      }
      started := true;
      watchdogArmed := true;
      if beginThrows {
        OnError();
        return;
      }
      Track(Notices);
      Track(Polling);
      Track(Retry);
      Track(Http);
      Track(Bot);
      stage := ClosingInputs;
    }

    // `promise.finally(() => pending.delete(name))`, with the catches of the bot stop and the drain.
    method Settled(c: Component, ok: bool)
      modifies this
      ensures Value() == OnSettle(old(Value()), c, ok)
    {
      if !Of(Value(), c).Pending? {
        return;
      }
      pending := pending - {c};
      if !ok && c.Drain? {
        drained := false;
      }
      progress := progress[c := if ok || c.Bot? || c.Drain? then Fulfilled else Rejected];
    }

    method DeadlineExceeded()
      modifies this
      ensures Value() == OnWatchdog(old(Value()))
    {
      if watchdogArmed && !exited {
        exited := true;
        exits := exits + [1];
      }
    }

    // The handler between two awaits.
    method Continue(destroyThrows: bool)
      modifies this
      ensures Value() == OnResume(old(Value()), destroyThrows)
    {
      if stage.NotStarted? || stage.Over? {
        return;
      }
      var wait := WaitFor(Value(), Awaited(stage));
      if wait.Blocked? {
        return;
      }
      if wait.Failed? {
        OnError();
        return;
      }
      if exited {
        stage := Over;
        return;
      }
      if stage.ClosingInputs? {
        Track(Drain);
        stage := Draining;
      } else if stage.Draining? {
        if !drained {
          Exit(1);
          return;
        }
        stage := AwaitingNotices;
      } else if stage.AwaitingNotices? {
        if destroyThrows {
          OnError();
          return;
        }
        sessionDestroyed := true;
        Track(Db);
        stage := ClosingDb;
      } else {
        watchdogArmed := false;
        Exit(0);
      }
    }
  }
}
