/**
 * Master keys come and go while files are backfilled and rows rewrapped. The
 * rewrap job visits rows and the check at startup looks at rows, but a backfill
 * that was cut leaves the only copy of its data key in a sidecar. This module
 * says exactly when that loses a file.
 */
module KeyRotation {
  import opened Gcm
  import opened Encryption
  import opened Backfill

  /** What is stored for one file, and the ring the program runs with. */
  datatype State = State(record: Record, ring: Option<Provider>)

  /**
   * A backfill run cut after some writes; the rewrap job reaching this row; a
   * restart with another ring. Rewrapping writes the row once, so a cut before
   * that write is no step at all.
   */
  datatype Step = Fill(entropy: Entropy, budget: nat) | RewrapRow(iv: Iv) | Restart(ring: Option<Provider>)

  function Rewrapped(g: Gcm, ring: Option<Provider>, r: Record, iv: Iv): Record {
    var row := Rewrap(g, ring, r.row, iv);
    if r.row.mode.LocalV1? && row.Ok? then r.(row := row.value) else r
  }

  predicate Holds(ring: Option<Provider>, id: Option<KeyId>) {
    id.Some? ==> ring.Some? && id.value in ring.value.keys
  }

  // The check at startup: no encrypted row without a ring, and with one each names no key or one of the ring.
  predicate Accepts(ring: Option<Provider>, r: Record) {
    if ring.None? then r.row.mode.NoEncryption? else r.row.mode.LocalV1? ==> Holds(ring, r.row.kekKeyId)
  }

  function Next(g: Gcm, s: State, aad: string, step: Step): State {
    match step
    case Fill(entropy, budget) => s.(record := BackfillRecord(s.record, aad, Env(g, s.ring, entropy), budget).record)
    case RewrapRow(iv) => s.(record := Rewrapped(g, s.ring, s.record, iv))
    case Restart(ring) => if Accepts(ring, s.record) then s.(ring := ring) else s
  }

  function Run(g: Gcm, s: State, aad: string, steps: seq<Step>): State
    decreases steps
  {
    if steps == [] then s else Run(g, Next(g, s, aad, steps[0]), aad, steps[1..])
  }

  // ---- What can still be read -----------------------------------------------------------

  /** The original can be had with this ring: through the row, or through the sidecar of an unfinished backfill. */
  predicate Recoverable(g: Gcm, ring: Option<Provider>, r: Record, aad: string, original: Bytes) {
    && r.file.Some?
    && (DecryptBuffer(g, ring, r.file.value, r.row, aad) == Ok(original)
        || (IsPending(r) && DecryptBuffer(g, ring, r.file.value, r.sidecar.value, aad) == Ok(original)))
  }

  // The file is encrypted and the row does not say so yet.
  predicate IsPending(r: Record) {
    r.row.mode.NoEncryption? && HoldsKey(r.sidecar) && r.file.Some? && IsEncryptedBlob(r.file.value)
  }

  // The master key that an unfinished backfill rests on.
  function PendingKey(r: Record): Option<KeyId> {
    if IsPending(r) then r.sidecar.value.kekKeyId else None
  }

  // The master key the file rests on, if any.
  function NeededKey(r: Record): Option<KeyId> {
    if r.row.mode.NoEncryption? then PendingKey(r) else r.row.kekKeyId
  }

  // Of all master keys there ever were; an id names one key.
  predicate From(vault: Provider, ring: Option<Provider>) {
    ring.Some? ==> forall id | id in ring.value.keys :: id in vault.keys && vault.keys[id] == ring.value.keys[id]
  }

  predicate AllFrom(vault: Provider, steps: seq<Step>) {
    forall i | 0 <= i < |steps| :: steps[i].Restart? ==> From(vault, steps[i].ring)
  }

  // With all keys there ever were nothing is lost, and encrypted rows name their key.
  predicate Kept(g: Gcm, vault: Provider, r: Record, aad: string, original: Bytes) {
    && !IsEncryptedBlob(original) && Safe(g, vault, r, aad, original)
    && (!r.row.mode.NoEncryption? ==> r.row.kekKeyId.Some?)
  }

  // Under a ring that holds its key, metadata opens a file as it does with all keys; under another it does not open it.
  lemma OpensExactlyWithKey(
    g: Gcm, vault: Provider, ring: Option<Provider>, file: Bytes, m: Metadata, aad: string, original: Bytes)
    requires From(vault, ring) && m.mode.LocalV1? && m.kekKeyId.Some?
    requires DecryptBuffer(g, Some(vault), file, m, aad) == Ok(original)
    ensures DecryptBuffer(g, ring, file, m, aad) == Ok(original) <==> Holds(ring, m.kekKeyId)
  {
    hide Open, HeaderError;
  }

  /** A file that is safe with all keys is recoverable with a ring exactly if the ring holds the key it rests on. */
  lemma RecoverableExactlyWhen(
    g: Gcm, vault: Provider, ring: Option<Provider>, r: Record, aad: string, original: Bytes)
    requires Kept(g, vault, r, aad, original) && From(vault, ring)
    ensures Recoverable(g, ring, r, aad, original) <==> Holds(ring, NeededKey(r))
  {
    hide DecryptBuffer;
    if r.row.mode.NoEncryption? {
      PlainRowReads(g, ring, r.file.value, r.row, aad);
      PlainRowReads(g, Some(vault), r.file.value, r.row, aad);
      if IsPending(r) {
        OpensExactlyWithKey(g, vault, ring, r.file.value, r.sidecar.value, aad, original);
      }
    } else {
      ReadableRowIsLocal(g, vault, r, aad, original);
      OpensExactlyWithKey(g, vault, ring, r.file.value, r.row, aad, original);
    }
  }

  lemma PlainRowReads(g: Gcm, ring: Option<Provider>, file: Bytes, m: Metadata, aad: string)
    requires m.mode.NoEncryption?
    ensures DecryptBuffer(g, ring, file, m, aad) == Ok(file)
  {
  }

  lemma ReadableRowIsLocal(g: Gcm, vault: Provider, r: Record, aad: string, original: Bytes)
    requires Safe(g, vault, r, aad, original) && !r.row.mode.NoEncryption?
    ensures r.row.mode.LocalV1? && DecryptBuffer(g, Some(vault), r.file.value, r.row, aad) == Ok(original)
  {
  }

  // ---- Every step ------------------------------------------------------------------------

  lemma FillKeeps(
    g: Gcm, vault: Provider, ring: Option<Provider>, r: Record, aad: string, entropy: Entropy, budget: nat,
    original: Bytes)
    requires Kept(g, vault, r, aad, original) && From(vault, ring)
    ensures var after := BackfillRecord(r, aad, Env(g, ring, entropy), budget).record;
            && Kept(g, vault, after, aad, original)
            && (Holds(ring, NeededKey(r)) ==> Holds(ring, NeededKey(after)))
  {
    hide DecryptBuffer, Wrap, Blob;
    BackfillKeepsSafe(r, aad, Env(g, ring, entropy), budget, vault, original);
  }

  lemma RewrapKeeps(
    g: Gcm, vault: Provider, ring: Option<Provider>, r: Record, aad: string, iv: Iv, original: Bytes)
    requires Kept(g, vault, r, aad, original) && From(vault, ring)
    ensures var after := Rewrapped(g, ring, r, iv);
            && Kept(g, vault, after, aad, original)
            && (Holds(ring, NeededKey(r)) ==> Holds(ring, NeededKey(after)))
            && PendingKey(after) == PendingKey(r)
  {
    hide DecryptBuffer, Unwrap, Wrap;
    if r.row.mode.LocalV1? && Rewrap(g, ring, r.row, iv).Ok? {
      if ring.Some? {
        RewrapKeepsReadable(g, ring.value, vault, r, aad, original, iv);
      }
    }
  }

  lemma NextKeeps(g: Gcm, vault: Provider, s: State, aad: string, step: Step, original: Bytes)
    requires Kept(g, vault, s.record, aad, original) && From(vault, s.ring)
    requires step.Restart? ==> From(vault, step.ring)
    ensures var v := Next(g, s, aad, step); Kept(g, vault, v.record, aad, original) && From(vault, v.ring)
  {
    hide Kept, BackfillRecord, Rewrapped, Accepts;
    match step
    case Fill(entropy, budget) => FillKeeps(g, vault, s.ring, s.record, aad, entropy, budget, original);
    case RewrapRow(iv) => RewrapKeeps(g, vault, s.ring, s.record, aad, iv, original);
    case Restart(_) =>
  }

  /**
   * In every run of cut backfills, rewraps and restarts: with all keys there
   * ever were nothing is lost, and with the present ring the file can be
   * recovered if and only if the ring holds the key it rests on.
   */
  lemma {:induction false} EveryRun(
    g: Gcm, vault: Provider, s: State, aad: string, steps: seq<Step>, original: Bytes)
    requires Kept(g, vault, s.record, aad, original) && From(vault, s.ring) && AllFrom(vault, steps)
    ensures var v := Run(g, s, aad, steps);
            && Kept(g, vault, v.record, aad, original) && From(vault, v.ring)
            && (Recoverable(g, v.ring, v.record, aad, original) <==> Holds(v.ring, NeededKey(v.record)))
    decreases steps
  {
    hide Kept, Recoverable, Next, NeededKey;
    if steps == [] {
      RecoverableExactlyWhen(g, vault, s.ring, s.record, aad, original);
    } else {
      NextKeeps(g, vault, s, aad, steps[0], original);
      EveryRun(g, vault, Next(g, s, aad, steps[0]), aad, steps[1..], original);
    }
  }

  // ---- Restarts ----------------------------------------------------------------------------

  // What the check at startup leaves out: the key of an unfinished backfill.
  predicate KeepsPendingKey(s: State, step: Step) {
    step.Restart? && Accepts(step.ring, s.record) ==> Holds(step.ring, PendingKey(s.record))
  }

  /** One step keeps a file recoverable if and only if it is no restart without the key of an unfinished backfill. */
  lemma StepLosesExactlyWhen(g: Gcm, vault: Provider, s: State, aad: string, step: Step, original: Bytes)
    requires Kept(g, vault, s.record, aad, original) && From(vault, s.ring)
    requires step.Restart? ==> From(vault, step.ring)
    requires Recoverable(g, s.ring, s.record, aad, original)
    ensures var v := Next(g, s, aad, step);
            Recoverable(g, v.ring, v.record, aad, original) <==> KeepsPendingKey(s, step)
  {
    hide Kept, Recoverable, BackfillRecord, Rewrapped;
    var v := Next(g, s, aad, step);
    RecoverableExactlyWhen(g, vault, s.ring, s.record, aad, original);
    NextKeeps(g, vault, s, aad, step, original);
    RecoverableExactlyWhen(g, vault, v.ring, v.record, aad, original);
    match step
    case Fill(entropy, budget) => FillKeeps(g, vault, s.ring, s.record, aad, entropy, budget, original);
    case RewrapRow(iv) => RewrapKeeps(g, vault, s.ring, s.record, aad, iv, original);
    case Restart(_) => KeptRowIsLocal(g, vault, s.record, aad, original);
  }

  lemma KeptRowIsLocal(g: Gcm, vault: Provider, r: Record, aad: string, original: Bytes)
    requires Kept(g, vault, r, aad, original)
    ensures r.row.mode.NoEncryption? || r.row.mode.LocalV1?
  {
    if !r.row.mode.NoEncryption? {
      ReadableRowIsLocal(g, vault, r, aad, original);
    }
  }

  predicate AlwaysRecoverable(g: Gcm, s: State, aad: string, steps: seq<Step>, original: Bytes)
    decreases steps
  {
    && Recoverable(g, s.ring, s.record, aad, original)
    && (steps != [] ==> AlwaysRecoverable(g, Next(g, s, aad, steps[0]), aad, steps[1..], original))
  }

  predicate AlwaysKeepsPendingKeys(g: Gcm, s: State, aad: string, steps: seq<Step>)
    decreases steps
  {
    steps != [] ==>
      KeepsPendingKey(s, steps[0]) && AlwaysKeepsPendingKeys(g, Next(g, s, aad, steps[0]), aad, steps[1..])
  }

  lemma {:induction false} RunLosesExactlyWhen(
    g: Gcm, vault: Provider, s: State, aad: string, steps: seq<Step>, original: Bytes)
    requires Kept(g, vault, s.record, aad, original) && From(vault, s.ring) && AllFrom(vault, steps)
    requires Recoverable(g, s.ring, s.record, aad, original)
    ensures AlwaysRecoverable(g, s, aad, steps, original) <==> AlwaysKeepsPendingKeys(g, s, aad, steps)
    decreases steps
  {
    hide Kept, Recoverable, Next, KeepsPendingKey;
    if steps != [] {
      var next := Next(g, s, aad, steps[0]);
      StepLosesExactlyWhen(g, vault, s, aad, steps[0], original);
      NextKeeps(g, vault, s, aad, steps[0], original);
      if Recoverable(g, next.ring, next.record, aad, original) {
        RunLosesExactlyWhen(g, vault, next, aad, steps[1..], original);
      }
    }
  }

  /**
   * From a file that was never encrypted: it can be recovered at every point of
   * a run if and only if no accepted restart drops the key of an unfinished
   * backfill.
   */
  lemma RotationLosesExactlyWhen(
    g: Gcm, vault: Provider, ring: Option<Provider>, aad: string, steps: seq<Step>, original: Bytes)
    requires !IsEncryptedBlob(original) && From(vault, ring) && AllFrom(vault, steps)
    ensures var s := State(Unencrypted(original), ring);
            AlwaysRecoverable(g, s, aad, steps, original) <==> AlwaysKeepsPendingKeys(g, s, aad, steps)
  {
    RunLosesExactlyWhen(g, vault, State(Unencrypted(original), ring), aad, steps, original);
  }

  // ---- The documented rotation -----------------------------------------------------------

  // Only the current key is left.
  function OnlyCurrent(p: Provider): Provider {
    Ring(map[p.current := p.keys[p.current]], p.current)
  }

  function RewrapThenDrop(p: Provider, iv: Iv): seq<Step> {
    [RewrapRow(iv), Restart(Some(OnlyCurrent(p)))]
  }

  /**
   * Rewrapping every row and then dropping the older keys is always accepted at
   * startup, and keeps the file if and only if no unfinished backfill rests on
   * an older key.
   */
  lemma DroppingOldKeysExactlyWhen(
    g: Gcm, vault: Provider, p: Provider, r: Record, aad: string, iv: Iv, original: Bytes)
    requires Kept(g, vault, r, aad, original) && From(vault, Some(p)) && Recoverable(g, Some(p), r, aad, original)
    ensures var v := Run(g, State(r, Some(p)), aad, RewrapThenDrop(p, iv));
            && v.ring == Some(OnlyCurrent(p))
            && (Recoverable(g, v.ring, v.record, aad, original) <==>
                PendingKey(r).None? || PendingKey(r).value == p.current)
  {
    hide Kept, Recoverable, Rewrap;
    var steps := RewrapThenDrop(p, iv);
    var s := State(r, Some(p));
    var s1 := Next(g, s, aad, steps[0]);
    var s2 := Next(g, s1, aad, steps[1]);
    assert steps[1..] == [steps[1]] && steps[1..][1..] == [];
    assert Run(g, s, aad, steps) == Run(g, s1, aad, steps[1..]) == Run(g, s2, aad, []) == s2;
    RowMovesToCurrent(g, vault, p, r, aad, iv, original);
    RewrapKeeps(g, vault, Some(p), r, aad, iv, original);
    StepLosesExactlyWhen(g, vault, s, aad, steps[0], original);
    StepLosesExactlyWhen(g, vault, s1, aad, steps[1], original);
  }

  lemma RowMovesToCurrent(
    g: Gcm, vault: Provider, p: Provider, r: Record, aad: string, iv: Iv, original: Bytes)
    requires Kept(g, vault, r, aad, original) && From(vault, Some(p)) && Recoverable(g, Some(p), r, aad, original)
    ensures var row := Rewrapped(g, Some(p), r, iv).row;
            row.mode == r.row.mode && (!row.mode.NoEncryption? ==> row.kekKeyId == Some(p.current))
  {
    hide Open, HeaderError, Wrap;
    if !r.row.mode.NoEncryption? {
      ReadableRowIsLocal(g, vault, r, aad, original);
    }
  }

  /** With a backfill completed before it, the rotation always keeps the file. */
  lemma FillThenRotateIsSafe(
    g: Gcm, vault: Provider, p: Provider, r: Record, aad: string, entropy: Entropy, iv: Iv, original: Bytes)
    requires Kept(g, vault, r, aad, original) && From(vault, Some(p)) && Recoverable(g, Some(p), r, aad, original)
    ensures var filled := Next(g, State(r, Some(p)), aad, Fill(entropy, WRITES_PER_RECORD)).record;
            var v := Run(g, State(filled, Some(p)), aad, RewrapThenDrop(p, iv));
            Recoverable(g, v.ring, v.record, aad, original)
  {
    hide Kept, Recoverable, Run, BackfillRecord, DecryptBuffer;
    var s := State(r, Some(p));
    var env := Env(g, Some(p), entropy);
    var filled := Next(g, s, aad, Fill(entropy, WRITES_PER_RECORD)).record;
    NextKeeps(g, vault, s, aad, Fill(entropy, WRITES_PER_RECORD), original);
    StepLosesExactlyWhen(g, vault, s, aad, Fill(entropy, WRITES_PER_RECORD), original);
    NothingPending(g, vault, r, aad, env, original);
    DroppingOldKeysExactlyWhen(g, vault, p, filled, aad, iv, original);
  }

  lemma NothingPending(g: Gcm, vault: Provider, r: Record, aad: string, env: Env, original: Bytes)
    requires Kept(g, vault, r, aad, original) && From(vault, env.provider) && env.provider.Some? && env.gcm == g
    ensures PendingKey(BackfillRecord(r, aad, env, WRITES_PER_RECORD).record).None?
  {
    hide DecryptBuffer;
    BackfillKeepsSafe(r, aad, env, WRITES_PER_RECORD, vault, original);
  }

  // A backfill cut before it reaches the row, a new current key, and the rotation.
  function CutThenRotate(f: Entropy, later: Provider, iv: Iv): seq<Step> {
    [Fill(f, 4), Restart(Some(later))] + RewrapThenDrop(later, iv)
  }

  /**
   * The rotation loses a file whose backfill was cut after the rename, although
   * all rows were rewrapped and every restart was accepted.
   */
  lemma CutBackfillIsLost(
    g: Gcm, before: Provider, later: Provider, aad: string, f: Entropy, iv: Iv, original: Bytes)
    requires !IsEncryptedBlob(original) && From(later, Some(before)) && before.current != later.current
    ensures var v := Run(g, State(Unencrypted(original), Some(before)), aad, CutThenRotate(f, later, iv));
            && v.ring == Some(OnlyCurrent(later))
            && !Recoverable(g, v.ring, v.record, aad, original)
            && Safe(g, later, v.record, aad, original)
  {
    hide Recoverable, DecryptBuffer, Rewrapped, Kept, Safe, Wrap;
    var start := State(Unencrypted(original), Some(before));
    var steps := CutThenRotate(f, later, iv);
    var cut := Next(g, start, aad, steps[0]);
    var moved := Next(g, cut, aad, steps[1]);
    StartIsKept(g, later, aad, original);
    NextKeeps(g, later, start, aad, steps[0], original);
    CutIsPending(g, before, aad, f, original);
    assert moved == cut.(ring := Some(later));
    RecoverableExactlyWhen(g, later, Some(later), moved.record, aad, original);
    DroppingOldKeysExactlyWhen(g, later, later, moved.record, aad, iv, original);
    assert steps[1..][1..] == RewrapThenDrop(later, iv) && steps[1..][0] == steps[1];
    assert Run(g, start, aad, steps) == Run(g, cut, aad, steps[1..]) == Run(g, moved, aad, RewrapThenDrop(later, iv));
    assert AllFrom(later, steps);
    EveryRun(g, later, start, aad, steps, original);
    KeptIsSafe(g, later, Run(g, start, aad, steps).record, aad, original);
  }

  lemma KeptIsSafe(g: Gcm, vault: Provider, r: Record, aad: string, original: Bytes)
    requires Kept(g, vault, r, aad, original)
    ensures Safe(g, vault, r, aad, original)
  {
  }

  lemma StartIsKept(g: Gcm, vault: Provider, aad: string, original: Bytes)
    requires !IsEncryptedBlob(original)
    ensures Kept(g, vault, Unencrypted(original), aad, original)
  {
  }

  lemma CutIsPending(g: Gcm, before: Provider, aad: string, f: Entropy, original: Bytes)
    ensures var r := BackfillRecord(Unencrypted(original), aad, Env(g, Some(before), f), 4).record;
            r.row.mode.NoEncryption? && PendingKey(r) == Some(before.current)
  {
    BlobOpens(g, f.dek, f.iv, original, aad);
  }
}
