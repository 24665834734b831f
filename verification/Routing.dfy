/**
 * Where an alias delivers: version-guarded mutations, migration repair and
 * the audit trail. The statements are functions on the tables; the class runs
 * them as the program does, repair with its loop over the re-pointed rows.
 */
module Routing {
  datatype Option<+T> = None | Some(value: T)

  type AliasId = string
  type ChatId = int
  type UserId = int
  type ThreadId = int

  datatype Status = Active | Paused | Deleted

  datatype Alias = Alias(owner: UserId, chat: ChatId, thread: Option<ThreadId>, version: nat, status: Status)

  datatype AuthzPath = Admin | Orphan | Migration

  /** One audit row. */
  datatype Event = Event(
    operation: string, alias: AliasId, owner: UserId, actor: Option<UserId>, path: AuthzPath,
    oldChat: ChatId, newChat: ChatId, oldThread: Option<ThreadId>, newThread: Option<ThreadId>)

  datatype Chat = Chat(title: string, kind: string, active: bool)

  /** `ids` lists the alias rows in table order. */
  datatype Db = Db(ids: seq<AliasId>, aliases: map<AliasId, Alias>, events: seq<Event>, chats: map<ChatId, Chat>)
  {
    ghost predicate Valid() {
      && (forall i, j | 0 <= i < j < |ids| :: ids[i] != ids[j])
      && (forall id :: id in ids <==> id in aliases)
    }
  }

  // ---- Version-guarded mutations ------------------------------------------------------

  predicate CasHolds(db: Db, id: AliasId, expectedVersion: nat) {
    id in db.aliases && db.aliases[id].version == expectedVersion && !db.aliases[id].status.Deleted?
  }

  /** What a caller of a move passes: the version it confirmed, and the route it read. */
  datatype MoveParams = MoveParams(
    id: AliasId, expectedVersion: nat, newChat: ChatId, oldChat: ChatId, oldThread: Option<ThreadId>,
    actor: Option<UserId>, path: AuthzPath, owner: UserId, operation: string)

  function MoveEvent(p: MoveParams): Event {
    Event(p.operation, p.id, p.owner, p.actor, p.path, p.oldChat, p.newChat, p.oldThread, None)
  }

  // The chat changes, the thread is cleared, the version moves on, the audit row is written.
  function Move(db: Db, p: MoveParams): Db {
    if !CasHolds(db, p.id, p.expectedVersion) then db
    else
      var a := db.aliases[p.id];
      db.(aliases := db.aliases[p.id := a.(chat := p.newChat, thread := None, version := a.version + 1)],
          events := db.events + [MoveEvent(p)])
  }

  function SetTopic(db: Db, id: AliasId, expectedVersion: nat, thread: Option<ThreadId>): Db {
    if !CasHolds(db, id, expectedVersion) then db
    else
      var a := db.aliases[id];
      db.(aliases := db.aliases[id := a.(thread := thread, version := a.version + 1)])
  }

  function SoftDelete(db: Db, id: AliasId, expectedVersion: nat): Db {
    if !CasHolds(db, id, expectedVersion) then db
    else db.(aliases := db.aliases[id := db.aliases[id].(status := Deleted)])
  }

  // ---- Migration repair -----------------------------------------------------------------

  /** A row as an UPDATE returns it. */
  datatype Row = Row(id: AliasId, alias: Alias)

  // The rows that point at a chat, deleted ones too, in table order.
  function PointingAt(aliases: map<AliasId, Alias>, ids: seq<AliasId>, chat: ChatId): (r: seq<Row>)
    ensures forall row | row in r :: row.id in aliases && row.alias == aliases[row.id] && row.alias.chat == chat
  {
    if ids == [] then []
    else if ids[0] in aliases && aliases[ids[0]].chat == chat then
      [Row(ids[0], aliases[ids[0]])] + PointingAt(aliases, ids[1..], chat)
    else PointingAt(aliases, ids[1..], chat)
  }

  function Repointed(a: Alias, oldChat: ChatId, newChat: ChatId): Alias {
    if a.chat == oldChat then a.(chat := newChat, version := a.version + 1) else a
  }

  function RepairEvents(rows: seq<Row>, oldChat: ChatId, newChat: ChatId, operation: string): (r: seq<Event>)
    ensures |r| == |rows|
    ensures forall i | 0 <= i < |rows| ::
      r[i] == Event(operation, rows[i].id, rows[i].alias.owner, None, Migration, oldChat, newChat,
                    rows[i].alias.thread, rows[i].alias.thread)
  {
    if rows == [] then []
    else
      var a := rows[0].alias;
      [Event(operation, rows[0].id, a.owner, None, Migration, oldChat, newChat, a.thread, a.thread)]
        + RepairEvents(rows[1..], oldChat, newChat, operation)
  }

  // The new chat's row: given metadata wins, then an existing row, then what was fetched or the old title.
  function ChatsAfterRepair(
    chats: map<ChatId, Chat>, oldChat: ChatId, newChat: ChatId, meta: Option<Chat>,
    fetched: Option<Chat>): map<ChatId, Chat>
  {
    var fallback :=
      if fetched.Some? then fetched.value
      else Chat(if oldChat in chats then chats[oldChat].title else "Unknown", "supergroup", true);
    var registered :=
      if meta.Some? then chats[newChat := meta.value.(active := true)]
      else if newChat !in chats then chats[newChat := fallback.(active := true)]
      else chats;
    if oldChat in registered then registered[oldChat := registered[oldChat].(active := false)] else registered
  }

  // What a repair knows of the new chat: what it was told, what is stored, what it fetched, or the old chat's title.
  function KnownChat(
    chats: map<ChatId, Chat>, oldChat: ChatId, newChat: ChatId, meta: Option<Chat>, fetched: Option<Chat>): Chat {
    match (meta, newChat in chats, fetched)
    case (Some(told), _, _) => Chat(told.title, told.kind, true)
    case (None, true, _) => chats[newChat]
    case (None, false, Some(read)) => Chat(read.title, read.kind, true)
    case (None, false, None) => Chat(if oldChat in chats then chats[oldChat].title else "Unknown", "supergroup", true)
  }

  /** After a repair the old chat, if it is known, is off, the new one is known, and no other row differs. */
  lemma ChatsAfterRepairExactly(
    chats: map<ChatId, Chat>, oldChat: ChatId, newChat: ChatId, meta: Option<Chat>, fetched: Option<Chat>)
    requires oldChat != newChat
    ensures var after := ChatsAfterRepair(chats, oldChat, newChat, meta, fetched);
            && after.Keys == chats.Keys + {newChat}
            && after[newChat] == KnownChat(chats, oldChat, newChat, meta, fetched)
            && (oldChat in chats ==> after[oldChat] == Chat(chats[oldChat].title, chats[oldChat].kind, false))
            && forall chat | chat in chats && chat != oldChat && chat != newChat :: after[chat] == chats[chat]
  {
  }

  function Repair(
    db: Db, oldChat: ChatId, newChat: ChatId, meta: Option<Chat>, fetched: Option<Chat>, operation: string): Db {
    var moved := PointingAt(db.aliases, db.ids, oldChat);
    Db(db.ids,
       map id | id in db.aliases :: Repointed(db.aliases[id], oldChat, newChat),
       db.events + RepairEvents(moved, oldChat, newChat, operation),
       ChatsAfterRepair(db.chats, oldChat, newChat, meta, fetched))
  }

  // A repair that finds no alias on the old chat changes no alias and adds no audit row.
  predicate NothingToRepair(db: Db, oldChat: ChatId) {
    forall id | id in db.aliases :: db.aliases[id].chat != oldChat
  }

  lemma {:induction false} NonePointing(aliases: map<AliasId, Alias>, ids: seq<AliasId>, chat: ChatId)
    requires forall id | id in aliases :: aliases[id].chat != chat
    ensures PointingAt(aliases, ids, chat) == []
  {
    if ids != [] {
      NonePointing(aliases, ids[1..], chat);
    }
  }

  lemma RepairOfNothing(
    db: Db, oldChat: ChatId, newChat: ChatId, meta: Option<Chat>, fetched: Option<Chat>, operation: string)
    requires NothingToRepair(db, oldChat)
    ensures var after := Repair(db, oldChat, newChat, meta, fetched, operation);
            after.aliases == db.aliases && after.events == db.events && after.ids == db.ids
  {
    NonePointing(db.aliases, db.ids, oldChat);
    assert db.events + [] == db.events;
  }

  /**
   * Replaying a repair at once changes no alias and adds no audit row, unless
   * the chat migrated to itself while an alias pointed at it: exactly then.
   */
  lemma ReplayIsNoOpExactlyWhen(
    db: Db, oldChat: ChatId, newChat: ChatId, meta: Option<Chat>, fetched: Option<Chat>, operation: string,
    again: string)
    requires db.Valid()
    ensures var once := Repair(db, oldChat, newChat, meta, fetched, operation);
            var twice := Repair(once, oldChat, newChat, meta, fetched, again);
            (twice.aliases == once.aliases && twice.events == once.events) <==>
            (oldChat != newChat || NothingToRepair(db, oldChat))
  {
    var once := Repair(db, oldChat, newChat, meta, fetched, operation);
    if oldChat != newChat || NothingToRepair(db, oldChat) {
      RepairOfNothing(once, oldChat, newChat, meta, fetched, again);
    } else {
      var id :| id in db.aliases && db.aliases[id].chat == oldChat;
      var twice := Repair(once, oldChat, newChat, meta, fetched, again);
      assert once.aliases[id].chat == oldChat;
      assert twice.aliases[id].version == once.aliases[id].version + 1;
    }
  }

  // ---- The tables in memory ----------------------------------------------------------------

  class Tables {
    var ids: seq<AliasId>
    var aliases: map<AliasId, Alias>
    var events: seq<Event>
    var chats: map<ChatId, Chat>

    constructor (chats: map<ChatId, Chat>)
      ensures Value() == Db([], map[], [], chats) && Value().Valid()
    {
      ids, aliases, events, this.chats := [], map[], [], chats;
    }

    function Value(): Db
      reads this
    {
      Db(ids, aliases, events, chats)
    }

    method MoveAliasWithCas(p: MoveParams) returns (moved: Option<Alias>)
      modifies this`aliases, this`events
      ensures Value() == Move(old(Value()), p)
      ensures moved.Some? <==> old(CasHolds(Value(), p.id, p.expectedVersion))
      ensures moved.Some? ==> p.id in aliases && moved.value == aliases[p.id]
    {
      moved := UpdateWhere(p.id, p.expectedVersion, Some(p.newChat), None, true, None);
      if moved.Some? {
        events := events + [MoveEvent(p)];
      }
    }

    // UPDATE … WHERE id, version and not deleted … RETURNING.
    method UpdateWhere(
      id: AliasId, expectedVersion: nat, chat: Option<ChatId>, thread: Option<ThreadId>, bump: bool,
      status: Option<Status>)
      returns (row: Option<Alias>)
      modifies this`aliases
      ensures row.Some? <==> old(CasHolds(Value(), id, expectedVersion))
      ensures row.None? ==> aliases == old(aliases)
      ensures row.Some? ==>
        var a := old(aliases)[id];
        && row.value == Alias(a.owner, if chat.Some? then chat.value else a.chat, if bump then thread else a.thread,
                              if bump then a.version + 1 else a.version,
                              if status.Some? then status.value else a.status)
        && aliases == old(aliases)[id := row.value]
    {
      if id !in aliases {
        return None;
      }
      var a := aliases[id];
      if a.version != expectedVersion || a.status.Deleted? {
        return None;
      }
      if chat.Some? {
        a := a.(chat := chat.value);
      }
      if bump {
        a := a.(thread := thread, version := a.version + 1);
      }
      if status.Some? {
        a := a.(status := status.value);
      }
      aliases := aliases[id := a];
      return Some(a);
    }

    method SetAliasTopicWithCas(id: AliasId, expectedVersion: nat, thread: Option<ThreadId>)
      returns (updated: Option<Alias>)
      modifies this`aliases
      ensures Value() == SetTopic(old(Value()), id, expectedVersion, thread)
      ensures updated.Some? <==> old(CasHolds(Value(), id, expectedVersion))
    {
      updated := UpdateWhere(id, expectedVersion, None, thread, true, None);
    }

    method SoftDeleteAliasWithCas(id: AliasId, expectedVersion: nat) returns (deleted: Option<Alias>)
      modifies this`aliases
      ensures Value() == SoftDelete(old(Value()), id, expectedVersion)
      ensures deleted.Some? <==> old(CasHolds(Value(), id, expectedVersion))
    {
      deleted := UpdateWhere(id, expectedVersion, None, None, false, Some(Deleted));
    }

    // UPDATE … WHERE chat_id = old … RETURNING the rows, with the thread they keep.
    method RepointAliasesToChat(oldChat: ChatId, newChat: ChatId) returns (repointed: seq<Row>)
      modifies this`aliases
      ensures aliases == map id | id in old(aliases) :: Repointed(old(aliases)[id], oldChat, newChat)
      ensures repointed == PointingAt(old(aliases), ids, oldChat)
    {
      repointed := [];
      var before := aliases;
      assert ids[0..] == ids;
      for i := 0 to |ids|
        invariant repointed + PointingAt(before, ids[i..], oldChat) == PointingAt(before, ids, oldChat)
      {
        assert ids[i..][0] == ids[i] && ids[i..][1..] == ids[i + 1..];
        if ids[i] in before && before[ids[i]].chat == oldChat {
          var row := Row(ids[i], before[ids[i]]);
          ghost var rest := PointingAt(before, ids[i + 1..], oldChat);
          assert repointed + ([row] + rest) == repointed + [row] + rest;
          repointed := repointed + [row];
        }
      }
      assert repointed + [] == repointed;
      aliases := map id | id in before :: Repointed(before[id], oldChat, newChat);
    }

    // One audit row per re-pointed alias.
    method WriteTrail(rows: seq<Row>, oldChat: ChatId, newChat: ChatId, operation: string)
      modifies this`events
      ensures events == old(events) + RepairEvents(rows, oldChat, newChat, operation)
    {
      ghost var trail := RepairEvents(rows, oldChat, newChat, operation);
      assert events + trail[..0] == events;
      for i := 0 to |rows|
        invariant events == old(events) + trail[..i]
      {
        var Row(id, a) := rows[i];
        assert trail[..i] + [trail[i]] == trail[..i + 1];
        events := events + [Event(operation, id, a.owner, None, Migration, oldChat, newChat, a.thread, a.thread)];
      }
      assert trail[..|rows|] == trail;
    }

    /** The locked part of the repair: chat row, aliases, one audit row per alias, old chat off. */
    method RepairChatMigration(
      oldChat: ChatId, newChat: ChatId, meta: Option<Chat>, fetched: Option<Chat>, operation: string)
      returns (aliasCount: nat)
      modifies this
      ensures Value() == Repair(old(Value()), oldChat, newChat, meta, fetched, operation)
      ensures aliasCount == |PointingAt(old(aliases), old(ids), oldChat)|
    {
      var oldTitle := if oldChat in chats then chats[oldChat].title else "Unknown";
      if meta.Some? {
        chats := chats[newChat := meta.value.(active := true)];
      } else if newChat !in chats {
        var fallback := if fetched.Some? then fetched.value else Chat(oldTitle, "supergroup", true);
        chats := chats[newChat := fallback.(active := true)];
      }
      var repointed := RepointAliasesToChat(oldChat, newChat);
      WriteTrail(repointed, oldChat, newChat, operation);
      if oldChat in chats {
        chats := chats[oldChat := chats[oldChat].(active := false)];
      }
      return |repointed|;
    }
  }
}
