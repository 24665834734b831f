/**
 * The advisory locks of moves, creations and repairs: one key space for chats
 * and users, a chat key first, then user ids in ascending order.
 */
module LockOrdering {
  datatype Option<+T> = None | Some(value: T)

  type LockKey = int

  predicate Ascending(keys: seq<LockKey>) {
    forall i, j | 0 <= i < j < |keys| :: keys[i] < keys[j]
  }

  lemma AscendingCons(first: LockKey, rest: seq<LockKey>)
    requires Ascending(rest) && forall k | k in rest :: first < k
    ensures Ascending([first] + rest)
  {
    forall i, j | 0 <= i < j < |rest| + 1 ensures ([first] + rest)[i] < ([first] + rest)[j] {
      assert rest[j - 1] in rest;
    }
  }

  // Put an id into its place, once.
  function Insert(id: LockKey, sorted: seq<LockKey>): (r: seq<LockKey>)
    requires Ascending(sorted)
    ensures Ascending(r) && forall k :: k in r <==> k == id || k in sorted
  {
    if sorted == [] then [id]
    else if id < sorted[0] then [id] + sorted
    else if id == sorted[0] then sorted
    else
      var rest := Insert(id, sorted[1..]);
      assert forall k | k in sorted[1..] :: sorted[0] < k;
      AscendingCons(sorted[0], rest);
      [sorted[0]] + rest
  }

  /** Distinct non-null ids, ascending. */
  function LockOrder(ids: seq<Option<LockKey>>): (r: seq<LockKey>)
    ensures Ascending(r) && forall k :: k in r <==> Some(k) in ids
  {
    if ids == [] then []
    else
      var rest := LockOrder(ids[1..]);
      if ids[0].Some? then Insert(ids[0].value, rest) else rest
  }

  // Those two properties leave only one possible order.
  lemma {:induction false} AscendingIsUnique(a: seq<LockKey>, b: seq<LockKey>)
    requires Ascending(a) && Ascending(b) && forall k :: k in a <==> k in b
    ensures a == b
  {
    if b != [] {
      assert b[0] in b && b[0] in a;
    }
    if a != [] {
      assert a[0] in a && a[0] in b;
      assert a[0] == b[0];
      forall k ensures k in a[1..] <==> k in b[1..] {
        if k in a[1..] { assert k in a && k > a[0]; }
        if k in b[1..] { assert k in b && k > b[0]; }
      }
      AscendingIsUnique(a[1..], b[1..]);
    }
  }

  // The keys a transaction takes, in order. A key it already holds is not taken again.
  function Plan(chat: Option<LockKey>, ids: seq<Option<LockKey>>): seq<LockKey> {
    if chat.None? then LockOrder(ids) else [chat.value] + Without(LockOrder(ids), chat.value)
  }

  function Without(keys: seq<LockKey>, key: LockKey): (r: seq<LockKey>)
    requires Ascending(keys)
    ensures Ascending(r) && forall k :: k in r <==> k in keys && k != key
  {
    if keys == [] then []
    else
      var rest := Without(keys[1..], key);
      assert forall k | k in keys[1..] :: keys[0] < k;
      AscendingCons(keys[0], rest);
      if keys[0] == key then rest else [keys[0]] + rest
  }

  // ---- Transactions that wait for each other --------------------------------------------

  /** A transaction that holds the first `held` keys of its plan until it is done. */
  datatype Tx = Tx(plan: seq<LockKey>, held: nat, done: bool)

  predicate Valid(t: Tx) {
    t.held <= |t.plan|
  }

  predicate Holds(t: Tx, key: LockKey)
    requires Valid(t)
  {
    !t.done && key in t.plan[..t.held]
  }

  predicate Wants(t: Tx) {
    !t.done && t.held < |t.plan|
  }

  predicate AllOrdered(txs: seq<Tx>) {
    forall t | t in txs :: Valid(t) && Ascending(t.plan)
  }

  // Transaction `i` waits for a key that `j` holds.
  predicate WaitsFor(txs: seq<Tx>, i: nat, j: nat)
    requires i < |txs| && j < |txs| && forall t | t in txs :: Valid(t)
  {
    i != j && Wants(txs[i]) && Holds(txs[j], txs[i].plan[txs[i].held])
  }

  predicate IsWaitCycle(txs: seq<Tx>, cycle: seq<nat>)
    requires forall t | t in txs :: Valid(t)
  {
    && cycle != [] && (forall k | 0 <= k < |cycle| :: cycle[k] < |txs|)
    && forall k | 0 <= k < |cycle| :: WaitsFor(txs, cycle[k], cycle[if k + 1 < |cycle| then k + 1 else 0])
  }

  lemma HeldKeysAreSmaller(t: Tx)
    requires Ascending(t.plan)
    ensures forall key | Valid(t) && Holds(t, key) && Wants(t) :: key < t.plan[t.held]
  {
    forall key | Valid(t) && Holds(t, key) && Wants(t) ensures key < t.plan[t.held] {
      var m :| 0 <= m < t.held && t.plan[..t.held][m] == key;
      assert t.plan[m] == key;
    }
  }

  // Who waits for a waiting transaction wants a smaller key than it does.
  lemma WaitingClimbs(txs: seq<Tx>, i: nat, j: nat)
    requires i < |txs| && j < |txs| && AllOrdered(txs) && WaitsFor(txs, i, j) && Wants(txs[j])
    ensures txs[i].plan[txs[i].held] < txs[j].plan[txs[j].held]
  {
    HeldKeysAreSmaller(txs[j]);
  }

  lemma {:induction false} CycleClimbs(txs: seq<Tx>, cycle: seq<nat>, k: nat)
    requires AllOrdered(txs) && IsWaitCycle(txs, cycle) && 0 < k < |cycle|
    ensures var first, last := txs[cycle[0]], txs[cycle[k]];
            Wants(first) && Wants(last) && first.plan[first.held] < last.plan[last.held]
  {
    assert WaitsFor(txs, cycle[k - 1], cycle[if k - 1 + 1 < |cycle| then k - 1 + 1 else 0]);
    assert WaitsFor(txs, cycle[k], cycle[if k + 1 < |cycle| then k + 1 else 0]);
    WaitingClimbs(txs, cycle[k - 1], cycle[k]);
    if k > 1 {
      CycleClimbs(txs, cycle, k - 1);
    }
  }

  /** No set of transactions that take their keys in ascending order ever forms a wait cycle. */
  lemma NoWaitCycle(txs: seq<Tx>, cycle: seq<nat>)
    requires AllOrdered(txs)
    ensures !IsWaitCycle(txs, cycle)
  {
    if IsWaitCycle(txs, cycle) {
      var n := |cycle| - 1;
      assert WaitsFor(txs, cycle[n], cycle[if n + 1 < |cycle| then n + 1 else 0]);
      assert WaitsFor(txs, cycle[0], cycle[if 0 + 1 < |cycle| then 0 + 1 else 0]);
      WaitingClimbs(txs, cycle[n], cycle[0]);
      if n > 0 {
        CycleClimbs(txs, cycle, n);
      }
    }
  }

  // It can take its next key, or has all keys and can commit.
  predicate CanProceed(txs: seq<Tx>, i: nat)
    requires i < |txs| && forall t | t in txs :: Valid(t)
  {
    !txs[i].done && (Wants(txs[i]) ==> forall j | 0 <= j < |txs| && j != i :: !Holds(txs[j], txs[i].plan[txs[i].held]))
  }

  /** As long as a transaction is unfinished, some transaction can proceed. */
  lemma {:induction false} SomeoneProceeds(txs: seq<Tx>, i: nat, bound: int) returns (r: nat)
    requires AllOrdered(txs) && i < |txs| && !txs[i].done
    requires forall t, k | t in txs && k in t.plan :: k < bound
    ensures r < |txs| && CanProceed(txs, r)
    decreases if Wants(txs[i]) then bound - txs[i].plan[txs[i].held] else 0
  {
    if CanProceed(txs, i) {
      r := i;
    } else {
      var j: nat :| j < |txs| && j != i && Holds(txs[j], txs[i].plan[txs[i].held]);
      if Wants(txs[j]) {
        WaitingClimbs(txs, i, j);
        assert txs[j].plan[txs[j].held] in txs[j].plan;
        r := SomeoneProceeds(txs, j, bound);
      } else {
        r := j;
      }
    }
  }

  // ---- Which plans ascend ------------------------------------------------------------------

  lemma PlanAscendsExactlyWhen(chat: LockKey, ids: seq<Option<LockKey>>)
    ensures Ascending(Plan(Some(chat), ids)) <==> forall id | Some(id) in ids :: chat <= id
  {
    var rest := Without(LockOrder(ids), chat);
    if forall id | Some(id) in ids :: chat <= id {
      AscendingCons(chat, rest);
    } else {
      var id :| Some(id) in ids && id < chat;
      assert id in rest;
      DescentShows(chat, rest, id);
    }
  }

  lemma DescentShows(first: LockKey, rest: seq<LockKey>, id: LockKey)
    requires id in rest && id < first
    ensures !Ascending([first] + rest)
  {
    var m :| 0 <= m < |rest| && rest[m] == id;
    var keys := [first] + rest;
    assert keys[0] == first && keys[m + 1] == id;
  }

  /** A group's chat key is negative and user ids are positive, so its plans ascend. */
  lemma GroupPlansAscend(chat: LockKey, ids: seq<Option<LockKey>>)
    requires chat < 0 && forall id | Some(id) in ids :: id > 0
    ensures Ascending(Plan(Some(chat), ids))
  {
    PlanAscendsExactlyWhen(chat, ids);
  }

  predicate WaitForEachOther(a: Tx, b: Tx) {
    Valid(a) && Valid(b) && WaitsFor([a, b], 0, 1) && WaitsFor([a, b], 1, 0)
  }

  lemma NoMutualWait(a: Tx, b: Tx)
    requires Ascending(a.plan) && Ascending(b.plan)
    ensures !WaitForEachOther(a, b)
  {
    HeldKeysAreSmaller(a);
    HeldKeysAreSmaller(b);
  }

  /**
   * A private chat's key is its user's id. A plan that takes it before a
   * smaller user id can deadlock with a move between the same two users; a
   * plan that ascends never deadlocks with one that ascends.
   */
  lemma PlanIsSafeExactlyWhen(chat: LockKey, ids: seq<Option<LockKey>>)
    ensures (forall id | Some(id) in ids :: chat <= id) <==>
            forall other, mine, theirs | Ascending(other) ::
              !WaitForEachOther(Tx(Plan(Some(chat), ids), mine, false), Tx(other, theirs, false))
  {
    PlanAscendsExactlyWhen(chat, ids);
    var plan := Plan(Some(chat), ids);
    if forall id | Some(id) in ids :: chat <= id {
      forall other, mine, theirs | Ascending(other)
        ensures !WaitForEachOther(Tx(plan, mine, false), Tx(other, theirs, false))
      {
        NoMutualWait(Tx(plan, mine, false), Tx(other, theirs, false));
      }
    } else {
      var smaller := SmallestFirst(chat, ids);
      var a, b := Tx(plan, 1, false), Tx([smaller, chat], 1, false);
      assert plan[..1] == [chat] && plan[1] == smaller && [smaller, chat][..1] == [smaller];
      assert WaitForEachOther(a, b);
    }
  }

  // The second key of a plan that does not ascend is below the first.
  lemma SmallestFirst(chat: LockKey, ids: seq<Option<LockKey>>) returns (smaller: LockKey)
    requires exists id :: Some(id) in ids && id < chat
    ensures var plan := Plan(Some(chat), ids); |plan| > 1 && plan[0] == chat && plan[1] == smaller < chat
  {
    var rest := Without(LockOrder(ids), chat);
    var id :| Some(id) in ids && id < chat;
    assert id in rest;
    smaller := rest[0];
    var m :| 0 <= m < |rest| && rest[m] == id;
    if m > 0 { assert rest[0] < rest[m]; }
  }

  // A move to the actor's own private chat, of an alias owned by a user with a smaller id.
  lemma OwnChatMoveCanDeadlock(owner: LockKey, actor: LockKey, group: LockKey)
    requires group < 0 < owner < actor
    ensures WaitForEachOther(Tx(Plan(Some(actor), [Some(owner), Some(actor)]), 1, false),
                             Tx(Plan(Some(group), [Some(owner), Some(actor)]), 2, false))
  {
    var ids := [Some(owner), Some(actor)];
    assert ids[1..] == [Some(actor)] && ids[1..][1..] == [];
    assert LockOrder(ids[1..]) == [actor];
    assert LockOrder(ids) == [owner, actor];
    assert [owner, actor][1..] == [actor] && [actor][1..] == [];
    assert Without([actor], actor) == [];
    assert Without([owner, actor], actor) == [owner] + Without([owner, actor][1..], actor);
    assert Without([actor], group) == [actor];
    assert Without([owner, actor], group) == [owner] + Without([owner, actor][1..], group);
    var a, b := Plan(Some(actor), ids), Plan(Some(group), ids);
    assert a == [actor, owner] && b == [group, owner, actor];
    assert a[..1] == [actor] && b[..2] == [group, owner];
    assert owner in b[..2];
  }
}
