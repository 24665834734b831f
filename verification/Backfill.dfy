/**
 * Encrypting files that were stored in the clear, so that a crash between any
 * two writes loses nothing. Each record has a file, an optional sidecar that
 * remembers the key of an encryption under way, and a database row.
 */
module Backfill {
  import opened Gcm
  import opened Encryption

  /** What is on disk and in the database for one stored file. */
  datatype Record = Record(file: Option<Bytes>, sidecar: Option<Metadata>, row: Metadata)

  datatype Ending = Crashed | Missing | Finished(metadata: Metadata)

  /** A record after some writes, the writes left before the crash, and how it ended. */
  datatype Step = Step(record: Record, budget: nat, ending: Ending)

  // A sidecar that holds a key; one written without a provider reads as none.
  predicate HoldsKey(sidecar: Option<Metadata>) {
    sidecar.Some? && sidecar.value.mode.LocalV1? && sidecar.value.wrappedDek.Some? && sidecar.value.kekKeyId.Some?
  }

  predicate IsEncryptedBlob(raw: Bytes) {
    FILE_MAGIC <= raw
  }

  /** What one backfill of one file needs from outside. */
  datatype Env = Env(gcm: Gcm, provider: Option<Provider>, entropy: Entropy)

  // Encrypt the file in place: sidecar first, then the file, each by a temporary file and a rename.
  function EncryptFile(r: Record, aad: string, env: Env, budget: nat): Step
    requires r.file.Some?
  {
    var e := EncryptBuffer(env.gcm, env.provider, r.file.value, aad, env.entropy);
    var noted := r.(sidecar := Some(e.metadata));
    if budget < 2 then Step(r, 0, Crashed)
    else if budget < 4 then Step(noted, 0, Crashed)
    else Step(noted.(file := Some(e.blob)), budget - 4, Finished(e.metadata))
  }

  function FileBackfill(r: Record, aad: string, env: Env, budget: nat): Step {
    if r.file.None? then Step(r, budget, Missing)
    else if !HoldsKey(r.sidecar) then EncryptFile(r, aad, env, budget)
    else if IsEncryptedBlob(r.file.value) then Step(r, budget, Finished(r.sidecar.value))
    else if budget == 0 then Step(r, 0, Crashed)
    else EncryptFile(r.(sidecar := None), aad, env, budget - 1)
  }

  // The file, then the row, then the sidecar.
  function BackfillRecord(r: Record, aad: string, env: Env, budget: nat): Step {
    if !r.row.mode.NoEncryption? then Step(r, budget, Finished(r.row))
    else
      var s := FileBackfill(r, aad, env, budget);
      if !s.ending.Finished? then s
      else
        var entered := s.record.(row := s.ending.metadata);
        if s.budget == 0 then s.(ending := Crashed)
        else if s.budget == 1 then Step(entered, 0, Crashed)
        else Step(entered.(sidecar := None), s.budget - 2, s.ending)
  }

  const WRITES_PER_RECORD := 7

  // ---- Safety of one record ---------------------------------------------------------

  // The master keys in use over time; a provider wraps under one of them.
  predicate Under(vault: Provider, provider: Option<Provider>) {
    provider.Some? ==>
      provider.value.current in vault.keys
        && vault.keys[provider.value.current] == provider.value.keys[provider.value.current]
  }

  // This metadata opens the file to the original bytes.
  predicate Opens(g: Gcm, vault: Provider, file: Bytes, m: Metadata, aad: string, original: Bytes) {
    m.mode.LocalV1? && DecryptBuffer(g, Some(vault), file, m, aad) == Ok(original)
  }

  // Reading through the row gives the original bytes.
  predicate Readable(g: Gcm, vault: Provider, r: Record, aad: string, original: Bytes) {
    r.file.Some? && DecryptBuffer(g, Some(vault), r.file.value, r.row, aad) == Ok(original)
  }

  /**
   * Nothing is lost: the file is still the original under a row that says so,
   * or it is encrypted once under a key that the row or the sidecar holds.
   */
  predicate Safe(g: Gcm, vault: Provider, r: Record, aad: string, original: Bytes) {
    && r.file.Some?
    && (Readable(g, vault, r, aad, original)
        || (r.row.mode.NoEncryption? && HoldsKey(r.sidecar) && IsEncryptedBlob(r.file.value)
            && Opens(g, vault, r.file.value, r.sidecar.value, aad, original)))
  }

  // An encrypted file is exactly one header and one tag longer than the original.
  lemma OpensOnce(g: Gcm, vault: Provider, file: Bytes, m: Metadata, aad: string, original: Bytes)
    requires Opens(g, vault, file, m, aad, original)
    ensures IsEncryptedBlob(file) && |file| == |original| + HEADER_LENGTH + TAG_LENGTH
  {
    assert file[..4] == FILE_MAGIC;
  }

  lemma EncryptFileSafe(r: Record, aad: string, env: Env, budget: nat, vault: Provider)
    requires r.file.Some? && r.row.mode.NoEncryption? && Under(vault, env.provider)
    requires !IsEncryptedBlob(r.file.value)
    ensures var s, original := EncryptFile(r, aad, env, budget), r.file.value;
            && Safe(env.gcm, vault, s.record, aad, original)
            && s.record.row == r.row
            && (s.ending.Finished? ==> Readable(env.gcm, vault, s.record.(row := s.ending.metadata), aad, original))
  {
    var original := r.file.value;
    RoundTrip(env.gcm, env.provider, Some(vault), original, aad, env.entropy);
    if env.provider.Some? {
      BlobOpens(env.gcm, env.entropy.dek, env.entropy.iv, original, aad);
    }
  }

  /**
   * One run over one record, cut after any number of writes, keeps it safe; a
   * run that is not cut leaves a row that reads the original bytes, and no
   * sidecar unless the row was already done.
   */
  lemma BackfillKeepsSafe(r: Record, aad: string, env: Env, budget: nat, vault: Provider, original: Bytes)
    requires Safe(env.gcm, vault, r, aad, original) && Under(vault, env.provider) && !IsEncryptedBlob(original)
    ensures var s := BackfillRecord(r, aad, env, budget);
            && Safe(env.gcm, vault, s.record, aad, original)
            && (!s.ending.Crashed? ==>
                  && Readable(env.gcm, vault, s.record, aad, original)
                  && (r.row.mode.NoEncryption? ==> s.record.sidecar.None?)
                  && (env.provider.Some? && r.row.mode.NoEncryption? ==> s.record.row.mode.LocalV1?))
            && (budget >= WRITES_PER_RECORD ==> !s.ending.Crashed?)
  {
    if r.row.mode.NoEncryption? && !IsEncryptedBlob(r.file.value) {
      EncryptFileSafe(r, aad, env, budget, vault);
      if HoldsKey(r.sidecar) && budget > 0 {
        EncryptFileSafe(r.(sidecar := None), aad, env, budget - 1, vault);
      }
    }
  }

  /**
   * Moving a row to the current master key keeps it readable under every ring
   * that agrees with the provider, once the row names its key.
   */
  lemma RewrapKeepsReadable(g: Gcm, p: Provider, vault: Provider, r: Record, aad: string, original: Bytes, iv: Iv)
    requires Readable(g, vault, r, aad, original) && r.row.mode.LocalV1? && r.row.kekKeyId.Some?
    requires forall k | k in p.keys :: k in vault.keys && vault.keys[k] == p.keys[k]
    requires Rewrap(g, Some(p), r.row, iv).Ok?
    ensures var row := Rewrap(g, Some(p), r.row, iv).value;
            Readable(g, vault, r.(row := row), aad, original) && row.kekKeyId == Some(p.current)
  {
    if r.row.kekKeyId.value != p.current {
      UnwrapRestores(g, p, vault, Unwrap(g, p, r.row.wrappedDek.value, r.row.kekKeyId).value, iv);
    }
  }

  // ---- Any sequence of runs -----------------------------------------------------------

  /** One run: its provider and random values, and after how many writes it is cut. */
  datatype Run = Run(provider: Option<Provider>, entropy: Entropy, budget: nat)

  function AfterRuns(g: Gcm, r: Record, aad: string, runs: seq<Run>): Record
    decreases runs
  {
    if runs == [] then r
    else AfterRuns(g, BackfillRecord(r, aad, Env(g, runs[0].provider, runs[0].entropy), runs[0].budget).record, aad,
                   runs[1..])
  }

  predicate AllUnder(vault: Provider, runs: seq<Run>) {
    forall i | 0 <= i < |runs| :: Under(vault, runs[i].provider)
  }

  lemma {:induction false} RunsKeepSafe(
    g: Gcm, r: Record, aad: string, runs: seq<Run>, vault: Provider, original: Bytes)
    requires Safe(g, vault, r, aad, original) && AllUnder(vault, runs) && !IsEncryptedBlob(original)
    ensures Safe(g, vault, AfterRuns(g, r, aad, runs), aad, original)
    decreases runs
  {
    if runs != [] {
      var env := Env(g, runs[0].provider, runs[0].entropy);
      BackfillKeepsSafe(r, aad, env, runs[0].budget, vault, original);
      RunsKeepSafe(g, BackfillRecord(r, aad, env, runs[0].budget).record, aad, runs[1..], vault, original);
    }
  }

  // A record as it is before the first backfill.
  function Unencrypted(original: Bytes): Record {
    Record(Some(original), None, PLAIN)
  }

  // The run that is cut right after the sidecar was renamed into place, and one that is not cut.
  function CutAfterSidecar(vault: Provider, f: Entropy): seq<Run> {
    [Run(Some(vault), f, 2), Run(Some(vault), f, WRITES_PER_RECORD)]
  }

  /**
   * The scheme tells encrypted files by their first four bytes. A plaintext
   * that starts with those bytes is taken for encrypted by the run after a cut
   * between sidecar and file: the row then claims a key that does not open it.
   */
  lemma MagicPlaintextIsLost(g: Gcm, vault: Provider, f: Entropy, aad: string, original: Bytes)
    requires IsEncryptedBlob(original)
    ensures AllUnder(vault, CutAfterSidecar(vault, f))
    ensures !Safe(g, vault, AfterRuns(g, Unencrypted(original), aad, CutAfterSidecar(vault, f)), aad, original)
  {
    var runs := CutAfterSidecar(vault, f);
    var env := Env(g, Some(vault), f);
    var metadata := MetadataFor(g, vault, f);
    var cut := BackfillRecord(Unencrypted(original), aad, env, 2).record;
    assert cut == Record(Some(original), Some(metadata), PLAIN);
    var done := BackfillRecord(cut, aad, env, WRITES_PER_RECORD).record;
    assert done == Record(Some(original), None, metadata);
    assert runs[1..][1..] == [] && runs[1..][0] == runs[1];
    assert AfterRuns(g, done, aad, []) == done;
    assert AfterRuns(g, cut, aad, runs[1..]) == done;
  }

  /**
   * So every sequence of runs, each cut anywhere, keeps the file if and only
   * if its plaintext does not start with the magic bytes of encrypted files.
   */
  lemma SafeExactlyWithoutMagic(g: Gcm, vault: Provider, f: Entropy, aad: string, original: Bytes)
    ensures !(|original| >= 4 && original[..4] == [0x45, 0x54, 0x47, 0x31]) <==>
            forall runs | AllUnder(vault, runs) ::
              Safe(g, vault, AfterRuns(g, Unencrypted(original), aad, runs), aad, original)
  {
    if IsEncryptedBlob(original) {
      MagicPlaintextIsLost(g, vault, f, aad, original);
    } else {
      forall runs | AllUnder(vault, runs)
        ensures Safe(g, vault, AfterRuns(g, Unencrypted(original), aad, runs), aad, original)
      {
        RunsKeepSafe(g, Unencrypted(original), aad, runs, vault, original);
      }
    }
  }

  /**
   * What a run does to a record before it is cut, and in how many writes: two
   * for each of sidecar and file, one each to drop a stale sidecar, to update
   * the row and to drop the sidecar. It resumes a file that is encrypted under
   * a sidecar with a wrapped key and its key id; it encrypts any other file.
   */
  lemma UncutRunExactly(r: Record, aad: string, env: Env, budget: nat)
    requires budget >= 7
    ensures var s := BackfillRecord(r, aad, env, budget);
            var keyed := r.sidecar.Some? && r.sidecar.value.mode == LocalV1 && r.sidecar.value.wrappedDek.Some?
                         && r.sidecar.value.kekKeyId.Some?;
            if r.row.mode != NoEncryption || r.file.None? then
              s.record == r && s.budget == budget && !s.ending.Crashed?
            else
              var file := r.file.value;
              var e := EncryptBuffer(env.gcm, env.provider, file, aad, env.entropy);
              if keyed && |file| >= 4 && file[..4] == [0x45, 0x54, 0x47, 0x31] then
                s == Step(Record(Some(file), None, r.sidecar.value), budget - 2, Finished(r.sidecar.value))
              else
                s == Step(Record(Some(e.blob), None, e.metadata), budget - (if keyed then 7 else 6),
                          Finished(e.metadata))
  {
    hide EncryptBuffer;
  }

  // ---- The maintenance loop -------------------------------------------------------------

  type Path = string

  /** A database row that refers to a stored file. */
  datatype Row = Row(path: Path, aad: string, encryption: Metadata)

  /** Records after a run over all of them. */
  datatype Sweep = Sweep(records: seq<Record>, budget: nat, completed: bool)

  function BackfillAll(
    records: seq<Record>, aads: seq<string>, gcm: Gcm, provider: Option<Provider>, entropy: seq<Entropy>, budget: nat):
    (s: Sweep)
    requires |records| == |aads| == |entropy|
    ensures |s.records| == |records|
  {
    if records == [] then Sweep([], budget, true)
    else
      var first := BackfillRecord(records[0], aads[0], Env(gcm, provider, entropy[0]), budget);
      if first.ending.Crashed? then Sweep([first.record] + records[1..], 0, false)
      else
        var rest := BackfillAll(records[1..], aads[1..], gcm, provider, entropy[1..], first.budget);
        Sweep([first.record] + rest.records, rest.budget, rest.completed)
  }

  // The rest of a run that has reached record `i`.
  function RestOfSweep(
    records: seq<Record>, aads: seq<string>, gcm: Gcm, provider: Option<Provider>, entropy: seq<Entropy>, budget: nat,
    i: nat):
    (s: Sweep)
    requires |records| == |aads| == |entropy| && i <= |records|
  {
    var rest := BackfillAll(records[i..], aads[i..], gcm, provider, entropy[i..], budget);
    rest.(records := records[..i] + rest.records)
  }

  lemma SweepStep(
    records: seq<Record>, aads: seq<string>, gcm: Gcm, provider: Option<Provider>, entropy: seq<Entropy>, budget: nat,
    i: nat)
    requires |records| == |aads| == |entropy| && i < |records|
    ensures var first := BackfillRecord(records[i], aads[i], Env(gcm, provider, entropy[i]), budget);
            var after := records[i := first.record];
            RestOfSweep(records, aads, gcm, provider, entropy, budget, i) ==
            if first.ending.Crashed? then Sweep(after, first.budget, false)
            else RestOfSweep(after, aads, gcm, provider, entropy, first.budget, i + 1)
  {
    var first := BackfillRecord(records[i], aads[i], Env(gcm, provider, entropy[i]), budget);
    var after := records[i := first.record];
    assert records[i..][1..] == records[i + 1..] == after[i + 1..];
    assert aads[i..][1..] == aads[i + 1..] && entropy[i..][1..] == entropy[i + 1..];
    if first.ending.Crashed? {
      assert records[..i] + ([first.record] + records[i + 1..]) == after;
    } else {
      var rest := BackfillAll(records[i + 1..], aads[i + 1..], gcm, provider, entropy[i + 1..], first.budget).records;
      assert records[..i] + ([first.record] + rest) == after[..i + 1] + rest;
    }
  }

  /** A run that has seven writes for every record is never cut. */
  lemma {:induction false} EnoughWritesComplete(
    records: seq<Record>, aads: seq<string>, gcm: Gcm, provider: Option<Provider>, entropy: seq<Entropy>, budget: nat)
    requires |records| == |aads| == |entropy| && budget >= 7 * |records|
    ensures BackfillAll(records, aads, gcm, provider, entropy, budget).completed
  {
    hide BackfillRecord;
    if records != [] {
      UncutRunExactly(records[0], aads[0], Env(gcm, provider, entropy[0]), budget);
      var first := BackfillRecord(records[0], aads[0], Env(gcm, provider, entropy[0]), budget);
      EnoughWritesComplete(records[1..], aads[1..], gcm, provider, entropy[1..], first.budget);
    }
  }

  /**
   * A run over any number of records, cut anywhere, keeps all of them safe; if
   * it completes, every row reads its original file.
   */
  lemma {:induction false} BackfillAllKeepsSafe(
    records: seq<Record>, aads: seq<string>, gcm: Gcm, provider: Option<Provider>, entropy: seq<Entropy>, budget: nat,
    vault: Provider, originals: seq<Bytes>)
    requires |records| == |aads| == |entropy| == |originals| && Under(vault, provider)
    requires forall i | 0 <= i < |records| ::
      Safe(gcm, vault, records[i], aads[i], originals[i]) && !IsEncryptedBlob(originals[i])
    ensures var s := BackfillAll(records, aads, gcm, provider, entropy, budget);
            forall i | 0 <= i < |records| ::
              && Safe(gcm, vault, s.records[i], aads[i], originals[i])
              && (s.completed ==> Readable(gcm, vault, s.records[i], aads[i], originals[i]))
    decreases records
  {
    if records != [] {
      var env := Env(gcm, provider, entropy[0]);
      var first := BackfillRecord(records[0], aads[0], env, budget);
      BackfillKeepsSafe(records[0], aads[0], env, budget, vault, originals[0]);
      if !first.ending.Crashed? {
        BackfillAllKeepsSafe(records[1..], aads[1..], gcm, provider, entropy[1..], first.budget, vault, originals[1..]);
      }
    }
  }

  /**
   * The disk and the table. `writesLeft` counts the writes until the machine
   * stops; a write that finds none left does not happen.
   */
  class Storage {
    const gcm: Gcm
    var files: map<Path, Bytes>
    var sidecars: map<Path, Metadata>
    var rows: seq<Row>
    var writesLeft: nat

    constructor (gcm: Gcm, files: map<Path, Bytes>, rows: seq<Row>, writesLeft: nat)
      ensures this.gcm == gcm && this.files == files && sidecars == map[] && this.rows == rows
              && this.writesLeft == writesLeft
    {
      this.gcm, this.files, sidecars, this.rows, this.writesLeft := gcm, files, map[], rows, writesLeft;
    }

    // Each file is referenced by exactly one row.
    predicate OneRowPerFile()
      reads this
    {
      forall i, j | 0 <= i < j < |rows| :: rows[i].path != rows[j].path
    }

    function RecordOf(row: Row): Record
      reads this
    {
      Record(if row.path in files then Some(files[row.path]) else None,
             if row.path in sidecars then Some(sidecars[row.path]) else None, row.encryption)
    }

    function Records(): (r: seq<Record>)
      reads this
      ensures |r| == |rows|
    {
      seq(|rows|, i requires 0 <= i < |rows| reads this => RecordOf(rows[i]))
    }

    function Aads(): (r: seq<string>)
      reads this
      ensures |r| == |rows|
    {
      seq(|rows|, i requires 0 <= i < |rows| reads this => rows[i].aad)
    }

    // Only what is stored under `path` may differ.
    twostate predicate OnlyAt(path: Path)
      reads this
    {
      forall q | q != path ::
        && (q in files <==> q in old(files)) && (q in files ==> files[q] == old(files)[q])
        && (q in sidecars <==> q in old(sidecars)) && (q in sidecars ==> sidecars[q] == old(sidecars)[q])
    }

    method Write() returns (done: bool)
      modifies this`writesLeft
      ensures done == (old(writesLeft) > 0) && writesLeft == if done then old(writesLeft) - 1 else 0
    {
      done := writesLeft > 0;
      if done {
        writesLeft := writesLeft - 1;
      }
    }

    // The sidecar appears under its name only with the rename, whole.
    method ReplaceSidecar(path: Path, m: Metadata) returns (done: bool)
      modifies this`writesLeft, this`sidecars
      ensures done == (old(writesLeft) >= 2) && writesLeft == if done then old(writesLeft) - 2 else 0
      ensures sidecars == if done then old(sidecars)[path := m] else old(sidecars)
    {
      done := Write(); // the temporary file
      if done {
        done := Write(); // the rename
      }
      if done {
        sidecars := sidecars[path := m];
      }
    }

    method ReplaceFile(path: Path, contents: Bytes) returns (done: bool)
      modifies this`writesLeft, this`files
      ensures done == (old(writesLeft) >= 2) && writesLeft == if done then old(writesLeft) - 2 else 0
      ensures files == if done then old(files)[path := contents] else old(files)
    {
      done := Write();
      if done {
        done := Write();
      }
      if done {
        files := files[path := contents];
      }
    }

    method ClearSidecar(path: Path) returns (done: bool)
      modifies this`writesLeft, this`sidecars
      ensures done == (old(writesLeft) >= 1) && writesLeft == if done then old(writesLeft) - 1 else 0
      ensures sidecars == if done then old(sidecars) - {path} else old(sidecars)
    {
      done := Write();
      if done {
        sidecars := sidecars - {path};
      }
    }

    method BackfillFile(row: Row, provider: Option<Provider>, entropy: Entropy) returns (ending: Ending)
      modifies this`writesLeft, this`sidecars, this`files
      ensures Step(RecordOf(row), writesLeft, ending) ==
              FileBackfill(old(RecordOf(row)), row.aad, Env(gcm, provider, entropy), old(writesLeft))
      ensures OnlyAt(row.path)
    {
      var path := row.path;
      if path !in files {
        return Missing;
      }
      var resumed := if path in sidecars then Some(sidecars[path]) else None;
      if HoldsKey(resumed) {
        if IsEncryptedBlob(files[path]) {
          return Finished(resumed.value);
        }
        var cleared := ClearSidecar(path);
        if !cleared {
          return Crashed;
        }
      }
      var e := EncryptBuffer(gcm, provider, files[path], row.aad, entropy);
      var noted := ReplaceSidecar(path, e.metadata);
      if !noted {
        return Crashed;
      }
      var replaced := ReplaceFile(path, e.blob);
      if !replaced {
        return Crashed;
      }
      return Finished(e.metadata);
    }

    method BackfillRow(i: nat, provider: Option<Provider>, entropy: Entropy) returns (ending: Ending)
      requires i < |rows| && OneRowPerFile()
      modifies this
      ensures |rows| == |old(rows)| && Aads() == old(Aads()) && OneRowPerFile()
      ensures var s := BackfillRecord(old(Records())[i], old(Aads())[i], Env(gcm, provider, entropy), old(writesLeft));
              Records() == old(Records())[i := s.record] && writesLeft == s.budget && ending == s.ending
    {
      var row := rows[i];
      if !row.encryption.mode.NoEncryption? {
        return Finished(row.encryption);
      }
      ending := BackfillFile(row, provider, entropy);
      OnlyOneRecord(i);
      if !ending.Finished? {
        return;
      }
      var updated := Write();
      if !updated {
        return Crashed;
      }
      rows := rows[i := row.(encryption := ending.metadata)];
      OnlyOneRecord(i);
      var cleared := ClearSidecar(row.path);
      OnlyOneRecord(i);
      if !cleared {
        return Crashed;
      }
    }

    // A step that touches one row and its path leaves all other records as they were.
    twostate lemma OnlyOneRecord(i: nat)
      requires i < |rows| == |old(rows)| && OneRowPerFile() && OnlyAt(rows[i].path)
      requires rows == old(rows)[i := old(rows)[i].(encryption := rows[i].encryption)]
      ensures Records() == old(Records())[i := RecordOf(rows[i])] && Aads() == old(Aads())
    {
      forall j | 0 <= j < |rows| && j != i ensures RecordOf(rows[j]) == old(Records())[j] {
        assert rows[j].path != rows[i].path;
      }
    }

    /** One maintenance run over all rows: it does to the records exactly what `BackfillAll` says. */
    method BackfillStoredEncryption(provider: Option<Provider>, entropy: seq<Entropy>) returns (completed: bool)
      requires OneRowPerFile() && |entropy| == |rows|
      modifies this
      ensures |rows| == |old(rows)| && Aads() == old(Aads()) && OneRowPerFile()
      ensures Sweep(Records(), writesLeft, completed) ==
              BackfillAll(old(Records()), old(Aads()), gcm, provider, entropy, old(writesLeft))
    {
      hide BackfillRecord;
      ghost var aads := Aads();
      ghost var whole := BackfillAll(Records(), aads, gcm, provider, entropy, writesLeft);
      var n := |rows|;
      assert Records()[0..] == Records() && aads[0..] == aads && entropy[0..] == entropy;
      for i := 0 to n
        invariant |rows| == n && Aads() == aads && OneRowPerFile()
        invariant RestOfSweep(Records(), aads, gcm, provider, entropy, writesLeft, i) == whole
      {
        SweepStep(Records(), aads, gcm, provider, entropy, writesLeft, i);
        var ending := BackfillRow(i, provider, entropy[i]);
        if ending.Crashed? {
          return false;
        }
      }
      assert Records()[..n] + [] == Records();
      return true;
    }
  }
}
