/**
 * Every run of reads, confirmed moves, topic changes, deletions, creations
 * and migration repairs. Beside the tables the state keeps two ledgers no
 * step reads: every snapshot a caller ever took of an alias, and the chat each
 * alias was created in.
 */
module RoutingRuns {
  import opened Routing

  /** An alias as some caller read it. */
  datatype Snapshot = Snapshot(id: AliasId, alias: Alias)

  datatype World = World(db: Db, seen: seq<Snapshot>, origins: map<AliasId, ChatId>)

  /**
   * A mutation names the snapshot its confirmation was built from. A move
   * also re-reads the alias before it runs: `reread` comes no earlier.
   */
  datatype Action =
    | Register(chat: ChatId, title: string, kind: string)
    | Create(id: AliasId, owner: UserId, chat: ChatId, thread: Option<ThreadId>)
    | Read(id: AliasId)
    | ConfirmMove(confirmed: nat, reread: nat, newChat: ChatId, actor: Option<UserId>, path: AuthzPath,
                  operation: string)
    | ConfirmTopic(confirmed: nat, thread: Option<ThreadId>)
    | ConfirmDelete(confirmed: nat)
    | Migrate(oldChat: ChatId, newChat: ChatId, meta: Option<Chat>, fetched: Option<Chat>, operation: string)
    | SetPaused(id: AliasId, paused: bool)

  predicate Deactivated(db: Db, chat: ChatId) {
    chat in db.chats && !db.chats[chat].active
  }

  predicate SnapshotsMatch(w: World, confirmed: nat, reread: nat) {
    confirmed <= reread < |w.seen| && w.seen[confirmed].id == w.seen[reread].id
  }

  function ParamsOf(w: World, a: Action): MoveParams
    requires a.ConfirmMove? && SnapshotsMatch(w, a.confirmed, a.reread)
  {
    var seen := w.seen[a.reread].alias;
    MoveParams(w.seen[a.confirmed].id, w.seen[a.confirmed].alias.version, a.newChat, seen.chat, seen.thread,
               a.actor, a.path, seen.owner, a.operation)
  }

  // A new alias may only be created in, and an alias only moved to, a chat that was not deactivated.
  function NextDb(w: World, a: Action): Db {
    match a
    case Register(chat, title, kind) => w.db.(chats := w.db.chats[chat := Chat(title, kind, true)])
    case Create(id, owner, chat, thread) =>
      if id in w.db.aliases || id in w.db.ids || Deactivated(w.db, chat) then w.db
      else w.db.(ids := w.db.ids + [id], aliases := w.db.aliases[id := Alias(owner, chat, thread, 0, Active)])
    case Read(_) => w.db
    case ConfirmMove(confirmed, reread, newChat, _, _, _) =>
      if !SnapshotsMatch(w, confirmed, reread) || Deactivated(w.db, newChat) then w.db else Move(w.db, ParamsOf(w, a))
    case ConfirmTopic(confirmed, thread) =>
      if confirmed >= |w.seen| then w.db
      else SetTopic(w.db, w.seen[confirmed].id, w.seen[confirmed].alias.version, thread)
    case ConfirmDelete(confirmed) =>
      if confirmed >= |w.seen| then w.db else SoftDelete(w.db, w.seen[confirmed].id, w.seen[confirmed].alias.version)
    case Migrate(oldChat, newChat, meta, fetched, operation) => Repair(w.db, oldChat, newChat, meta, fetched, operation)
    case SetPaused(id, paused) =>
      if id !in w.db.aliases || w.db.aliases[id].status.Deleted? then w.db
      else w.db.(aliases := w.db.aliases[id := w.db.aliases[id].(status := if paused then Paused else Active)])
  }

  function Next(w: World, a: Action): World {
    var db := NextDb(w, a);
    World(db,
          if a.Read? && a.id in w.db.aliases then w.seen + [Snapshot(a.id, w.db.aliases[a.id])] else w.seen,
          if a.Create? && a.id !in w.db.aliases && a.id in db.aliases then w.origins[a.id := a.chat] else w.origins)
  }

  function Run(w: World, actions: seq<Action>): World
    decreases actions
  {
    if actions == [] then w else Run(Next(w, actions[0]), actions[1..])
  }

  function Initial(chats: map<ChatId, Chat>): World {
    World(Db([], map[], [], chats), [], map[])
  }

  // ---- The audit trail of one alias ------------------------------------------------------

  function Trail(events: seq<Event>, id: AliasId): (r: seq<Event>)
    ensures forall e | e in r :: e.alias == id
  {
    if events == [] then []
    else Trail(events[..|events| - 1], id) + (if events[|events| - 1].alias == id then [events[|events| - 1]] else [])
  }

  // Each audit row starts where the one before it ended; the first starts at `from`, the last ends at `to`.
  predicate Chains(trail: seq<Event>, from: ChatId, to: ChatId)
    decreases |trail|
  {
    if trail == [] then from == to
    else
      var last := trail[|trail| - 1];
      last.newChat == to && Chains(trail[..|trail| - 1], from, last.oldChat)
  }

  lemma TrailAppend(events: seq<Event>, e: Event, id: AliasId)
    ensures Trail(events + [e], id) == Trail(events, id) + if e.alias == id then [e] else []
  {
    assert (events + [e])[..|events|] == events;
  }

  lemma {:induction false} TrailConcat(a: seq<Event>, b: seq<Event>, id: AliasId)
    ensures Trail(a + b, id) == Trail(a, id) + Trail(b, id)
    decreases |b|
  {
    if b == [] {
      assert a + b == a;
    } else {
      var n := |b| - 1;
      assert a + b == a + b[..n] + [b[n]];
      TrailAppend(a + b[..n], b[n], id);
      TrailConcat(a, b[..n], id);
    }
  }

  // The audit rows a repair adds for one alias: one if it pointed at the old chat, none otherwise.
  function RepairTrail(
    aliases: map<AliasId, Alias>, ids: seq<AliasId>, oldChat: ChatId, newChat: ChatId, operation: string, id: AliasId):
    seq<Event>
  {
    if id in ids && id in aliases && aliases[id].chat == oldChat then
      RepairEvents([Row(id, aliases[id])], oldChat, newChat, operation)
    else []
  }

  lemma {:induction false} TrailOfRepair(
    aliases: map<AliasId, Alias>, ids: seq<AliasId>, oldChat: ChatId, newChat: ChatId, operation: string, id: AliasId)
    requires Distinct(ids)
    ensures Trail(RepairEvents(PointingAt(aliases, ids, oldChat), oldChat, newChat, operation), id) ==
            RepairTrail(aliases, ids, oldChat, newChat, operation, id)
    decreases |ids|
  {
    if ids != [] {
      var head, rest := ids[0], ids[1..];
      TrailOfRepair(aliases, rest, oldChat, newChat, operation, id);
      assert id in ids <==> id == head || id in rest;
      var rows := PointingAt(aliases, rest, oldChat);
      if head in aliases && aliases[head].chat == oldChat {
        assert PointingAt(aliases, ids, oldChat) == [Row(head, aliases[head])] + rows;
        TrailOfRow(Row(head, aliases[head]), rows, oldChat, newChat, operation, id);
      } else {
        assert PointingAt(aliases, ids, oldChat) == rows;
      }
    }
  }

  predicate Distinct(ids: seq<AliasId>) {
    ids == [] || (ids[0] !in ids[1..] && Distinct(ids[1..]))
  }

  lemma {:induction false} IdsAreDistinct(ids: seq<AliasId>)
    requires forall i, j | 0 <= i < j < |ids| :: ids[i] != ids[j]
    ensures Distinct(ids)
  {
    if ids != [] {
      var rest := ids[1..];
      forall i, j | 0 <= i < j < |rest| ensures rest[i] != rest[j] {
        assert ids[i + 1] == rest[i] && ids[j + 1] == rest[j];
      }
      IdsAreDistinct(rest);
    }
  }

  lemma TrailOfRow(row: Row, rest: seq<Row>, oldChat: ChatId, newChat: ChatId, operation: string, id: AliasId)
    ensures Trail(RepairEvents([row] + rest, oldChat, newChat, operation), id) ==
            (if row.id == id then RepairEvents([row], oldChat, newChat, operation) else [])
            + Trail(RepairEvents(rest, oldChat, newChat, operation), id)
  {
    var first, later := RepairEvents([row], oldChat, newChat, operation),
        RepairEvents(rest, oldChat, newChat, operation);
    assert RepairEvents([row] + rest, oldChat, newChat, operation) == first + later;
    TrailConcat(first, later, id);
    TrailAppend([], first[0], id);
    assert [] + [first[0]] == first;
  }

  // ---- The invariant ------------------------------------------------------------------------

  // The route and whatever a confirmation relies on did not change since the snapshot, if its version did not.
  predicate Current(db: Db, s: Snapshot) {
    && s.id in db.aliases
    && s.alias.version <= db.aliases[s.id].version
    && s.alias.owner == db.aliases[s.id].owner
    && (s.alias.version == db.aliases[s.id].version ==>
          s.alias.chat == db.aliases[s.id].chat && s.alias.thread == db.aliases[s.id].thread)
  }

  // Later snapshots of an alias have no smaller version, and the same route at the same version.
  predicate InOrder(a: Snapshot, b: Snapshot) {
    a.id == b.id ==>
      && a.alias.version <= b.alias.version
      && (a.alias.version == b.alias.version ==> a.alias.chat == b.alias.chat && a.alias.thread == b.alias.thread)
  }

  ghost predicate SnapshotsKept(w: World) {
    && (forall k | 0 <= k < |w.seen| :: Current(w.db, w.seen[k]))
    && (forall i, j | 0 <= i < j < |w.seen| :: InOrder(w.seen[i], w.seen[j]))
  }

  ghost predicate TrailsKept(w: World) {
    && (forall id | id in w.db.aliases ::
        id in w.origins && Chains(Trail(w.db.events, id), w.origins[id], w.db.aliases[id].chat))
    && (forall e | e in w.db.events :: e.alias in w.db.aliases)
  }

  ghost predicate Invariant(w: World) {
    w.db.Valid() && SnapshotsKept(w) && TrailsKept(w)
  }

  // An alias only ever changes so that snapshots stay truthful.
  predicate Progresses(before: Alias, after: Alias) {
    && before.owner == after.owner && before.version <= after.version
    && (before.version == after.version ==> before.chat == after.chat && before.thread == after.thread)
    && (before.status.Deleted? ==> after.status.Deleted?)
  }

  lemma StepProgresses(w: World, a: Action, id: AliasId)
    requires id in w.db.aliases
    ensures id in Next(w, a).db.aliases && Progresses(w.db.aliases[id], Next(w, a).db.aliases[id])
  {
  }

  lemma StepKeepsSnapshots(w: World, a: Action)
    requires Invariant(w)
    ensures SnapshotsKept(Next(w, a))
  {
    hide Next, Progresses, TrailsKept, InOrder, Current;
    var v := Next(w, a);
    SeenAfter(w, a);
    forall k | 0 <= k < |v.seen| ensures Current(v.db, v.seen[k]) {
      if k < |w.seen| {
        CurrentStays(w, a, w.seen[k]);
      } else {
        ReadIsCurrent(w.db, a.id);
      }
    }
    forall i, j | 0 <= i < j < |v.seen| ensures InOrder(v.seen[i], v.seen[j]) {
      if j == |w.seen| {
        CurrentBeforeRead(w.db, w.seen[i], a.id);
      }
    }
  }

  // A step reads one alias or remembers nothing new.
  lemma SeenAfter(w: World, a: Action)
    ensures var v := Next(w, a);
            || v.seen == w.seen
            || (a.Read? && a.id in w.db.aliases && v.db == w.db
                && v.seen == w.seen + [Snapshot(a.id, w.db.aliases[a.id])])
  {
  }

  lemma CurrentStays(w: World, a: Action, s: Snapshot)
    requires Current(w.db, s)
    ensures Current(Next(w, a).db, s)
  {
    hide Next;
    StepProgresses(w, a, s.id);
  }

  lemma ReadIsCurrent(db: Db, id: AliasId)
    requires id in db.aliases
    ensures Current(db, Snapshot(id, db.aliases[id]))
  {
  }

  lemma CurrentBeforeRead(db: Db, s: Snapshot, id: AliasId)
    requires Current(db, s) && id in db.aliases
    ensures InOrder(s, Snapshot(id, db.aliases[id]))
  {
  }

  // A step that writes no audit row moves no alias.
  lemma QuietStepKeepsTrails(w: World, v: World)
    requires TrailsKept(w) && v.db.events == w.db.events
    requires forall id | id in w.db.aliases ::
      id in v.db.aliases && v.db.aliases[id].chat == w.db.aliases[id].chat && id in v.origins
        && v.origins[id] == w.origins[id]
    requires forall id | id in v.db.aliases && id !in w.db.aliases ::
             id in v.origins && v.origins[id] == v.db.aliases[id].chat
    ensures TrailsKept(v)
  {
    forall id | id in v.db.aliases
      ensures id in v.origins && Chains(Trail(v.db.events, id), v.origins[id], v.db.aliases[id].chat)
    {
      if id !in w.db.aliases {
        NoTrail(w.db.events, id);
      }
    }
  }

  lemma {:induction false} NoTrail(events: seq<Event>, id: AliasId)
    requires forall e | e in events :: e.alias != id
    ensures Trail(events, id) == []
  {
    if events != [] {
      NoTrail(events[..|events| - 1], id);
    }
  }

  lemma ChainGrows(trail: seq<Event>, e: Event, from: ChatId)
    requires Chains(trail, from, e.oldChat)
    ensures Chains(trail + [e], from, e.newChat)
  {
    assert (trail + [e])[..|trail|] == trail;
  }

  // The re-read saw the version of the confirmation, hence the route the move starts from.
  lemma MoveStartsWhereItRead(w: World, a: Action)
    requires SnapshotsKept(w) && a.ConfirmMove? && SnapshotsMatch(w, a.confirmed, a.reread)
    requires CasHolds(w.db, ParamsOf(w, a).id, ParamsOf(w, a).expectedVersion)
    ensures var p := ParamsOf(w, a); p.oldChat == w.db.aliases[p.id].chat && p.oldThread == w.db.aliases[p.id].thread
  {
    assert Current(w.db, w.seen[a.reread]) && Current(w.db, w.seen[a.confirmed]);
    if a.confirmed < a.reread {
      assert InOrder(w.seen[a.confirmed], w.seen[a.reread]);
    }
  }

  lemma MoveKeepsTrails(db: Db, origins: map<AliasId, ChatId>, p: MoveParams)
    requires TrailsKept(World(db, [], origins)) && CasHolds(db, p.id, p.expectedVersion)
             && p.oldChat == db.aliases[p.id].chat
    ensures TrailsKept(World(Move(db, p), [], origins))
  {
    var v := Move(db, p);
    forall id | id in v.aliases ensures id in origins && Chains(Trail(v.events, id), origins[id], v.aliases[id].chat) {
      TrailAppend(db.events, MoveEvent(p), id);
      if id == p.id {
        ChainGrows(Trail(db.events, id), MoveEvent(p), origins[id]);
      } else {
        assert Trail(db.events, id) + [] == Trail(db.events, id);
      }
    }
  }

  lemma MoveStepKeepsTrails(w: World, a: Action)
    requires Invariant(w) && a.ConfirmMove?
    ensures TrailsKept(Next(w, a))
  {
    if NextDb(w, a) == w.db {
      QuietStepKeepsTrails(w, Next(w, a));
    } else {
      MoveStartsWhereItRead(w, a);
      MoveKeepsTrails(w.db, w.origins, ParamsOf(w, a));
    }
  }

  lemma RepairKeepsTrails(w: World, a: Action)
    requires Invariant(w) && a.Migrate?
    ensures TrailsKept(Next(w, a))
  {
    var v := Next(w, a);
    var rows := PointingAt(w.db.aliases, w.db.ids, a.oldChat);
    var added := RepairEvents(rows, a.oldChat, a.newChat, a.operation);
    IdsAreDistinct(w.db.ids);
    forall id | id in v.db.aliases
      ensures id in v.origins && Chains(Trail(v.db.events, id), v.origins[id], v.db.aliases[id].chat)
    {
      TrailOfRepair(w.db.aliases, w.db.ids, a.oldChat, a.newChat, a.operation, id);
      TrailConcat(w.db.events, added, id);
      var more := RepairTrail(w.db.aliases, w.db.ids, a.oldChat, a.newChat, a.operation, id);
      if w.db.aliases[id].chat == a.oldChat {
        assert more == [more[0]];
        ChainGrows(Trail(w.db.events, id), more[0], w.origins[id]);
      } else {
        assert Trail(w.db.events, id) + more == Trail(w.db.events, id);
      }
    }
    forall e | e in added ensures e.alias in v.db.aliases {
      var i :| 0 <= i < |added| && added[i] == e;
      assert rows[i] in rows;
    }
  }

  lemma NextKeeps(w: World, a: Action)
    requires Invariant(w)
    ensures Invariant(Next(w, a))
  {
    hide Next, SnapshotsKept, TrailsKept;
    StepKeepsSnapshots(w, a);
    StepKeepsValid(w, a);
    if a.ConfirmMove? {
      MoveStepKeepsTrails(w, a);
    } else if a.Migrate? {
      RepairKeepsTrails(w, a);
    } else {
      QuietStepMovesNothing(w, a);
      QuietStepKeepsTrails(w, Next(w, a));
    }
  }

  lemma StepKeepsValid(w: World, a: Action)
    requires w.db.Valid()
    ensures Next(w, a).db.Valid()
  {
  }

  lemma QuietStepMovesNothing(w: World, a: Action)
    requires TrailsKept(w) && !a.ConfirmMove? && !a.Migrate?
    ensures var v := Next(w, a);
            && v.db.events == w.db.events
            && (forall id | id in w.db.aliases ::
                  id in v.db.aliases && v.db.aliases[id].chat == w.db.aliases[id].chat && id in v.origins
                  && v.origins[id] == w.origins[id])
            && (forall id | id in v.db.aliases && id !in w.db.aliases ::
                  id in v.origins && v.origins[id] == v.db.aliases[id].chat)
  {
    hide Trail, Chains;
  }

  lemma {:induction false} RunKeeps(w: World, actions: seq<Action>)
    requires Invariant(w)
    ensures Invariant(Run(w, actions))
    decreases actions
  {
    if actions != [] {
      NextKeeps(w, actions[0]);
      RunKeeps(Next(w, actions[0]), actions[1..]);
    }
  }

  // ---- What every run promises ------------------------------------------------------------

  /**
   * No A→B→A: in every run, a mutation confirmed against a snapshot succeeds
   * only if the alias is not deleted and its chat and thread are still those
   * of the snapshot.
   */
  lemma ConfirmedRouteIsCurrent(chats: map<ChatId, Chat>, actions: seq<Action>, confirmed: nat)
    requires confirmed < |Run(Initial(chats), actions).seen|
    requires var w := Run(Initial(chats), actions);
             CasHolds(w.db, w.seen[confirmed].id, w.seen[confirmed].alias.version)
    ensures var w := Run(Initial(chats), actions);
            var now, read := w.db.aliases[w.seen[confirmed].id], w.seen[confirmed].alias;
            now.chat == read.chat && now.thread == read.thread && now.owner == read.owner && !now.status.Deleted?
  {
    RunKeeps(Initial(chats), actions);
    var w := Run(Initial(chats), actions);
    assert Current(w.db, w.seen[confirmed]);
  }

  /**
   * The audit log really chains: for each alias the rows lead from the chat it
   * was created in to the chat it is in now, without a gap.
   */
  lemma AuditLogChains(chats: map<ChatId, Chat>, actions: seq<Action>, id: AliasId)
    requires id in Run(Initial(chats), actions).db.aliases
    ensures var w := Run(Initial(chats), actions);
            id in w.origins && Chains(Trail(w.db.events, id), w.origins[id], w.db.aliases[id].chat)
  {
    RunKeeps(Initial(chats), actions);
  }

  /**
   * The chats of two consecutive audit rows meet, in plain terms.
   */
  lemma {:induction false} ChainsMeet(trail: seq<Event>, from: ChatId, to: ChatId)
    requires Chains(trail, from, to)
    ensures trail != [] ==> trail[0].oldChat == from && trail[|trail| - 1].newChat == to
    ensures forall i | 0 < i < |trail| :: trail[i].oldChat == trail[i - 1].newChat
    decreases |trail|
  {
    if |trail| > 1 {
      var n := |trail| - 1;
      var init := trail[..n];
      ChainsMeet(init, from, trail[n].oldChat);
      forall i | 0 < i < |trail| ensures trail[i].oldChat == trail[i - 1].newChat {
        assert trail[i - 1] == init[i - 1];
        if i < n { assert trail[i] == init[i]; }
      }
    }
  }

  /**
   * Every step that changes an alias's chat or thread raises its version, by
   * one; none ever lowers it, and a deleted alias stays deleted.
   */
  lemma RouteChangesAreVersioned(w: World, a: Action, id: AliasId)
    requires id in w.db.aliases
    ensures var before, after := w.db.aliases[id], Next(w, a).db.aliases[id];
            && (before.chat != after.chat || before.thread != after.thread ==> before.version < after.version)
            && before.version <= after.version <= before.version + 1
            && (before.status.Deleted? ==> after.status.Deleted?)
  {
    StepProgresses(w, a, id);
  }

  // ---- Late replays of a repair ---------------------------------------------------------------

  // The chat stays off: nothing registers it again and no other chat migrates to it.
  predicate LeavesAlone(a: Action, chat: ChatId) {
    !(a.Register? && a.chat == chat) && !(a.Migrate? && a.newChat == chat)
  }

  lemma {:induction false} DeadChatStaysEmpty(w: World, actions: seq<Action>, chat: ChatId)
    requires Deactivated(w.db, chat) && NothingToRepair(w.db, chat)
    requires forall a | a in actions :: LeavesAlone(a, chat)
    ensures Deactivated(Run(w, actions).db, chat) && NothingToRepair(Run(w, actions).db, chat)
    decreases actions
  {
    if actions != [] {
      assert LeavesAlone(actions[0], chat);
      var v := Next(w, actions[0]);
      forall id | id in v.db.aliases ensures v.db.aliases[id].chat != chat { }
      DeadChatStaysEmpty(v, actions[1..], chat);
    }
  }

  /**
   * After a repair, the same migration may be observed again at any later
   * time, whatever ran in between: it changes no alias and adds no audit row.
   */
  lemma LateReplayIsNoOp(w: World, first: Action, actions: seq<Action>, second: Action)
    requires first.Migrate? && second.Migrate? && first.oldChat == second.oldChat != first.newChat
    requires first.oldChat in w.db.chats && forall a | a in actions :: LeavesAlone(a, first.oldChat)
    ensures var later := Run(Next(w, first), actions);
            Next(later, second).db.aliases == later.db.aliases && Next(later, second).db.events == later.db.events
  {
    var repaired := Next(w, first);
    assert Deactivated(repaired.db, first.oldChat) && NothingToRepair(repaired.db, first.oldChat);
    DeadChatStaysEmpty(repaired, actions, first.oldChat);
    var later := Run(repaired, actions);
    RepairOfNothing(later.db, second.oldChat, second.newChat, second.meta, second.fetched, second.operation);
  }

  /**
   * At any time, observing a migration moves exactly the aliases that point at
   * the old chat then, so it is a no-op exactly if there are none.
   */
  lemma RepairMovesExactlyThosePointing(w: World, a: Action)
    requires a.Migrate?
    ensures Next(w, a).db.aliases.Keys == w.db.aliases.Keys
    ensures forall id | id in w.db.aliases ::
              Next(w, a).db.aliases[id] != w.db.aliases[id] <==> w.db.aliases[id].chat == a.oldChat
    ensures Next(w, a).db.aliases == w.db.aliases && Next(w, a).db.events == w.db.events
            <==> NothingToRepair(w.db, a.oldChat)
  {
    var v := Next(w, a);
    forall id | id in w.db.aliases
      ensures v.db.aliases[id] != w.db.aliases[id] <==> w.db.aliases[id].chat == a.oldChat
    {
      assert v.db.aliases[id] == Repointed(w.db.aliases[id], a.oldChat, a.newChat);
    }
    if NothingToRepair(w.db, a.oldChat) {
      RepairOfNothing(w.db, a.oldChat, a.newChat, a.meta, a.fetched, a.operation);
    } else {
      var id :| id in w.db.aliases && w.db.aliases[id].chat == a.oldChat;
      assert v.db.aliases[id] != w.db.aliases[id];
    }
  }
}
