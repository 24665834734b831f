/**
 * Envelope encryption of stored files: the blob format, the one-shot and the
 * streaming forms, and the wrapping of data keys under a ring of master keys.
 */
module Encryption {
  import opened Gcm

  datatype Option<+T> = None | Some(value: T)
  datatype Result<+T> = Ok(value: T) | Err(error: Error)

  datatype Error =
    | UnsupportedMode | NotConfigured | MissingWrappedDek | UnknownKeyId | WrappedDekTruncated | InvalidKeyLength
    | Truncated | InvalidMagic | UnsupportedVersion(version: byte) | NotAuthentic

  type KeyId = string

  datatype Mode = NoEncryption | LocalV1 | UnknownMode

  /** The columns beside a stored file. An empty wrapped key counts as missing. */
  datatype Metadata = Metadata(mode: Mode, wrappedDek: Option<Bytes>, kekKeyId: Option<KeyId>, encryptedAt: Option<int>)

  /** The ring of master keys. New data keys are wrapped under the current one. */
  datatype Ring = Ring(keys: map<KeyId, Key>, current: KeyId)

  type Provider = r: Ring | r.current in r.keys witness Ring(map["" := seq(KEY_LENGTH, _ => 0)], "")

  const FILE_MAGIC: Bytes := [0x45, 0x54, 0x47, 0x31]
  const FILE_VERSION: byte := 1
  const HEADER_LENGTH := 17

  const PLAIN := Metadata(NoEncryption, None, None, None)

  function Concat(chunks: seq<Bytes>): Bytes {
    if chunks == [] then [] else Concat(chunks[..|chunks| - 1]) + chunks[|chunks| - 1]
  }

  // ---- Data keys -----------------------------------------------------------------

  function WrapAad(id: KeyId): string {
    "local-wrap:" + id
  }

  function Wrap(g: Gcm, p: Provider, dek: Bytes, iv: Iv): Bytes {
    var key := p.keys[p.current];
    var ciphertext := g.Crypt(key, iv, 0, dek);
    iv + ciphertext + g.tag(key, iv, WrapAad(p.current), ciphertext)
  }

  function EffectiveKeyId(p: Provider, id: Option<KeyId>): KeyId {
    if id.Some? then id.value else p.current
  }

  function Unwrap(g: Gcm, p: Provider, wrapped: Bytes, id: Option<KeyId>): Result<Bytes> {
    var keyId := EffectiveKeyId(p, id);
    if keyId !in p.keys then Err(UnknownKeyId)
    else if |wrapped| < IV_LENGTH + TAG_LENGTH then Err(WrappedDekTruncated)
    else
      var key, iv := p.keys[keyId], wrapped[..IV_LENGTH];
      var ciphertext, tag := wrapped[IV_LENGTH..|wrapped| - TAG_LENGTH], wrapped[|wrapped| - TAG_LENGTH..];
      if g.tag(key, iv, WrapAad(keyId), ciphertext) != tag then Err(NotAuthentic)
      else Ok(g.Crypt(key, iv, 0, ciphertext))
  }

  // A wrapped key comes back under every ring that still holds the key it was wrapped with.
  lemma UnwrapRestores(g: Gcm, p: Provider, later: Provider, dek: Bytes, iv: Iv)
    requires p.current in later.keys && later.keys[p.current] == p.keys[p.current]
    ensures Unwrap(g, later, Wrap(g, p, dek, iv), Some(p.current)) == Ok(dek)
  {
    var key := p.keys[p.current];
    var ciphertext := g.Crypt(key, iv, 0, dek);
    var wrapped := Wrap(g, p, dek, iv);
    assert wrapped[..IV_LENGTH] == iv;
    assert wrapped[IV_LENGTH..|wrapped| - TAG_LENGTH] == ciphertext;
    assert wrapped[|wrapped| - TAG_LENGTH..] == g.tag(key, iv, WrapAad(p.current), ciphertext);
    CryptTwice(g, key, iv, 0, dek);
  }

  // ---- The blob ------------------------------------------------------------------

  function Header(iv: Iv): Bytes {
    FILE_MAGIC + [FILE_VERSION] + iv
  }

  function Blob(g: Gcm, dek: Key, iv: Iv, plaintext: Bytes, aad: string): Bytes {
    var ciphertext := g.Crypt(dek, iv, 0, plaintext);
    Header(iv) + ciphertext + g.tag(dek, iv, aad, ciphertext)
  }

  datatype Encrypted = Encrypted(blob: Bytes, metadata: Metadata)

  /** What randomness and the clock supply to one encryption. */
  datatype Entropy = Entropy(dek: Key, iv: Iv, wrapIv: Iv, now: int)

  function MetadataFor(g: Gcm, p: Provider, f: Entropy): Metadata {
    Metadata(LocalV1, Some(Wrap(g, p, f.dek, f.wrapIv)), Some(p.current), Some(f.now))
  }

  function EncryptBuffer(g: Gcm, provider: Option<Provider>, plaintext: Bytes, aad: string, f: Entropy): Encrypted {
    if provider.None? then Encrypted(plaintext, PLAIN)
    else Encrypted(Blob(g, f.dek, f.iv, plaintext, aad), MetadataFor(g, provider.value, f))
  }

  // The data key of an encrypted file, or why there is none.
  function DataKey(g: Gcm, provider: Option<Provider>, m: Metadata): Result<Bytes> {
    if m.mode.UnknownMode? then Err(UnsupportedMode)
    else if provider.None? then Err(NotConfigured)
    else if m.wrappedDek.None? || m.wrappedDek.value == [] then Err(MissingWrappedDek)
    else Unwrap(g, provider.value, m.wrappedDek.value, m.kekKeyId)
  }

  // What the header says, when there is enough of it.
  function HeaderError(blob: Bytes): Option<Error>
    requires |blob| >= HEADER_LENGTH
  {
    if blob[..4] != FILE_MAGIC then Some(InvalidMagic)
    else if blob[4] != FILE_VERSION then Some(UnsupportedVersion(blob[4]))
    else None
  }

  function Open(g: Gcm, dek: Key, blob: Bytes, aad: string): Result<Bytes>
    requires |blob| >= HEADER_LENGTH + TAG_LENGTH
  {
    var iv, end := blob[5..HEADER_LENGTH], |blob| - TAG_LENGTH;
    var ciphertext := blob[HEADER_LENGTH..end];
    if g.tag(dek, iv, aad, ciphertext) != blob[end..] then Err(NotAuthentic)
    else Ok(g.Crypt(dek, iv, 0, ciphertext))
  }

  function DecryptBuffer(g: Gcm, provider: Option<Provider>, blob: Bytes, m: Metadata, aad: string): Result<Bytes> {
    if m.mode.NoEncryption? then Ok(blob)
    else if m.mode.UnknownMode? then Err(UnsupportedMode)
    else if provider.None? then Err(NotConfigured)
    else if m.wrappedDek.None? || m.wrappedDek.value == [] then Err(MissingWrappedDek)
    else if |blob| < HEADER_LENGTH + TAG_LENGTH then Err(Truncated)
    else if HeaderError(blob).Some? then Err(HeaderError(blob).value)
    else
      var dek := Unwrap(g, provider.value, m.wrappedDek.value, m.kekKeyId);
      if dek.Err? then Err(dek.error)
      else if |dek.value| != KEY_LENGTH then Err(InvalidKeyLength)
      else Open(g, dek.value, blob, aad)
  }

  // ---- Streams -------------------------------------------------------------------

  /** All bytes a stream emitted, and the error that ended it, if any. */
  datatype Outcome = Outcome(emitted: Bytes, error: Option<Error>)

  // What decrypting the bytes of a stream comes to, once the data key is known.
  function StreamOutcome(g: Gcm, dek: Bytes, blob: Bytes, aad: string): Outcome {
    if |blob| < HEADER_LENGTH then Outcome([], Some(Truncated))
    else if HeaderError(blob).Some? then Outcome([], HeaderError(blob))
    else if |dek| != KEY_LENGTH then Outcome([], Some(InvalidKeyLength))
    else if |blob| < HEADER_LENGTH + TAG_LENGTH then Outcome([], Some(Truncated))
    else
      var iv, end := blob[5..HEADER_LENGTH], |blob| - TAG_LENGTH;
      var ciphertext := blob[HEADER_LENGTH..end];
      Outcome(g.Crypt(dek, iv, 0, ciphertext),
              if g.tag(dek, iv, aad, ciphertext) == blob[end..] then None else Some(NotAuthentic))
  }

  function StreamDecryption(g: Gcm, provider: Option<Provider>, blob: Bytes, m: Metadata, aad: string): Outcome {
    if m.mode.NoEncryption? then Outcome(blob, None)
    else
      var dek := DataKey(g, provider, m);
      if dek.Err? then Outcome([], Some(dek.error)) else StreamOutcome(g, dek.value, blob, aad)
  }

  // The stream unwraps the key first, and reads the header before it knows that the blob cannot hold a tag.
  predicate ReportsAnotherError(g: Gcm, provider: Option<Provider>, blob: Bytes, m: Metadata) {
    && m.mode.LocalV1? && provider.Some? && m.wrappedDek.Some? && m.wrappedDek.value != []
    && var dek := Unwrap(g, provider.value, m.wrappedDek.value, m.kekKeyId);
       if dek.Err? then |blob| < HEADER_LENGTH + TAG_LENGTH || HeaderError(blob).Some?
       else
         && HEADER_LENGTH <= |blob| < HEADER_LENGTH + TAG_LENGTH
         && (HeaderError(blob).Some? || |dek.value| != KEY_LENGTH)
  }

  // Same successes, same bytes; the same error too, except exactly where the two look at things in another order.
  ghost predicate Agrees(g: Gcm, provider: Option<Provider>, blob: Bytes, m: Metadata, aad: string, stream: Outcome) {
    match DecryptBuffer(g, provider, blob, m, aad)
    case Ok(plaintext) => stream == Outcome(plaintext, None)
    case Err(error) =>
      stream.error.Some? && (stream.error == Some(error) <==> !ReportsAnotherError(g, provider, blob, m))
  }

  // A blob opens to its plaintext, whole or as a stream.
  lemma BlobOpens(g: Gcm, dek: Key, iv: Iv, plaintext: Bytes, aad: string)
    ensures StreamOutcome(g, dek, Blob(g, dek, iv, plaintext, aad), aad) == Outcome(plaintext, None)
    ensures var blob := Blob(g, dek, iv, plaintext, aad);
            |blob| == HEADER_LENGTH + |plaintext| + TAG_LENGTH && HeaderError(blob).None? && FILE_MAGIC <= blob
  {
    var blob := Blob(g, dek, iv, plaintext, aad);
    var ciphertext := g.Crypt(dek, iv, 0, plaintext);
    var end := |blob| - TAG_LENGTH;
    assert blob[..4] == FILE_MAGIC;
    assert blob[4] == FILE_VERSION;
    assert blob[5..HEADER_LENGTH] == iv;
    assert blob[HEADER_LENGTH..end] == ciphertext;
    assert blob[end..] == g.tag(dek, iv, aad, ciphertext);
    CryptTwice(g, dek, iv, 0, plaintext);
  }

  /** The bytes of a blob: "ETG1", version 1, the IV, the ciphertext and the tag. */
  lemma BlobLayout(g: Gcm, dek: Key, iv: Iv, plaintext: Bytes, aad: string)
    ensures var blob, n := Blob(g, dek, iv, plaintext, aad), |plaintext|;
            && |dek| == 32 && |blob| == n + 33 && blob[..5] == [0x45, 0x54, 0x47, 0x31, 1] && blob[5..17] == iv
            && blob[17..n + 17] == g.Crypt(dek, iv, 0, plaintext)
            && blob[n + 17..] == g.tag(dek, iv, aad, blob[17..n + 17])
  {
  }

  // How a file can be told from its bytes not to be one of ours.
  function RefusedBytes(blob: Bytes): Option<Error>
    requires |blob| > 4
  {
    if blob[..4] != [0x45, 0x54, 0x47, 0x31] then Some(InvalidMagic)
    else if blob[4] != 1 then Some(UnsupportedVersion(blob[4]))
    else None
  }

  /**
   * What both decryptors make of the bytes of a file whose key can be
   * unwrapped. Short files are truncated, 33 bytes being the least for the
   * buffer and 17 for the header of a stream; other first bytes and versions
   * are refused; and the rest opens exactly if its last sixteen bytes are the tag.
   */
  lemma DecryptsByBytes(g: Gcm, p: Provider, blob: Bytes, m: Metadata, aad: string, dek: Key)
    requires m.mode.LocalV1? && m.wrappedDek.Some? && m.wrappedDek.value != []
    requires Unwrap(g, p, m.wrappedDek.value, m.kekKeyId) == Ok(dek)
    ensures var whole, stream := DecryptBuffer(g, Some(p), blob, m, aad), StreamDecryption(g, Some(p), blob, m, aad);
            && (|blob| < 33 ==> whole == Err(Truncated))
            && (|blob| < 17 ==> stream == Outcome([], Some(Truncated)))
            && (|blob| >= 17 && RefusedBytes(blob).Some? ==> stream == Outcome([], RefusedBytes(blob)))
            && (17 <= |blob| < 33 && RefusedBytes(blob).None? ==> stream == Outcome([], Some(Truncated)))
            && (|blob| >= 33 ==>
                  var n := |blob| - 16;
                  var iv, ciphertext, tag := blob[5..17], blob[17..n], blob[n..];
                  if RefusedBytes(blob).Some? then whole == Err(RefusedBytes(blob).value)
                  else
                    && stream.emitted == g.Crypt(dek, iv, 0, ciphertext)
                    && (if g.tag(dek, iv, aad, ciphertext) == tag then whole == Ok(stream.emitted) && stream.error.None?
                        else whole == Err(NotAuthentic) && stream.error == Some(NotAuthentic)))
  {
  }

  // Why the metadata of a file give no wrapped key to open it with.
  function RefusedMetadata(provider: Option<Provider>, m: Metadata): Option<Error> {
    match (m.mode, provider, m.wrappedDek)
    case (UnknownMode, _, _) => Some(UnsupportedMode)
    case (LocalV1, None, _) => Some(NotConfigured)
    case (LocalV1, Some(_), None) => Some(MissingWrappedDek)
    case (LocalV1, Some(_), Some(wrapped)) => if wrapped == [] then Some(MissingWrappedDek) else None
    case (NoEncryption, _, _) => None
  }

  /**
   * What the metadata alone decide, for both decryptors: a file that is not
   * encrypted is handed on as it is, and one without a way to its key emits
   * nothing and says why, unknown modes before a missing provider and that
   * before a missing key. A wrapped key that does not open gives its own error,
   * in the buffer once the bytes are long enough and begin as they should.
   */
  lemma DecryptsByMetadata(g: Gcm, provider: Option<Provider>, blob: Bytes, m: Metadata, aad: string)
    ensures var whole, stream := DecryptBuffer(g, provider, blob, m, aad), StreamDecryption(g, provider, blob, m, aad);
            var refused := RefusedMetadata(provider, m);
            && (m.mode.NoEncryption? ==> whole == Ok(blob) && stream == Outcome(blob, None))
            && (refused.Some? ==> whole == Err(refused.value) && stream == Outcome([], refused))
            && (m.mode.LocalV1? && refused.None? ==>
                  var dek := Unwrap(g, provider.value, m.wrappedDek.value, m.kekKeyId);
                  dek.Err? ==>
                    && stream == Outcome([], Some(dek.error))
                    && (|blob| >= 33 && RefusedBytes(blob).None? ==> whole == Err(dek.error)))
  {
  }

  /**
   * Round trip: what was encrypted under a provider decrypts to the original,
   * by either decryptor, under every later ring that still holds the key it
   * was wrapped with, and without any provider if there was none.
   */
  lemma RoundTrip(
    g: Gcm, provider: Option<Provider>, later: Option<Provider>, plaintext: Bytes, aad: string, f: Entropy)
    requires provider.Some? ==>
      later.Some? && provider.value.current in later.value.keys &&
      later.value.keys[provider.value.current] == provider.value.keys[provider.value.current]
    ensures var e := EncryptBuffer(g, provider, plaintext, aad, f);
            && DecryptBuffer(g, later, e.blob, e.metadata, aad) == Ok(plaintext)
            && StreamDecryption(g, later, e.blob, e.metadata, aad) == Outcome(plaintext, None)
  {
    var e := EncryptBuffer(g, provider, plaintext, aad, f);
    if provider.Some? {
      UnwrapRestores(g, provider.value, later.value, f.dek, f.wrapIv);
      BlobOpens(g, f.dek, f.iv, plaintext, aad);
    }
  }

  // ---- Rewrapping ----------------------------------------------------------------

  function Rewrap(g: Gcm, provider: Option<Provider>, m: Metadata, iv: Iv): Result<Metadata> {
    if !m.mode.LocalV1? then Ok(m)
    else if m.wrappedDek.None? || m.wrappedDek.value == [] then Err(MissingWrappedDek)
    else if provider.None? then Err(NotConfigured)
    else
      var p := provider.value;
      if EffectiveKeyId(p, m.kekKeyId) == p.current then Ok(m)
      else
        var dek := Unwrap(g, p, m.wrappedDek.value, m.kekKeyId);
        if dek.Err? then Err(dek.error)
        else Ok(m.(wrappedDek := Some(Wrap(g, p, dek.value, iv)), kekKeyId := Some(p.current)))
  }

  /**
   * Rewrapping keeps the data key, moves it to the current master key, is
   * idempotent, and changes nothing else.
   */
  lemma RewrapKeepsDataKey(g: Gcm, p: Provider, m: Metadata, iv: Iv, again: Iv)
    requires m.mode.LocalV1? && Rewrap(g, Some(p), m, iv).Ok?
    ensures var r := Rewrap(g, Some(p), m, iv).value;
            && DataKey(g, Some(p), r) == DataKey(g, Some(p), m)
            && EffectiveKeyId(p, r.kekKeyId) == p.current
            && Rewrap(g, Some(p), r, again) == Ok(r)
            && r.mode == m.mode && r.encryptedAt == m.encryptedAt
  {
    if EffectiveKeyId(p, m.kekKeyId) != p.current {
      UnwrapRestores(g, p, p, Unwrap(g, p, m.wrappedDek.value, m.kekKeyId).value, iv);
    }
  }

  /**
   * After rewrapping, the other master keys can be dropped from the ring. A row
   * that never recorded its key id follows whichever key is current, so for it
   * the current key must stay current.
   */
  lemma OldKeysCanBeDropped(g: Gcm, p: Provider, m: Metadata, iv: Iv, later: Provider)
    requires m.mode.LocalV1? && Rewrap(g, Some(p), m, iv).Ok?
    requires p.current in later.keys && later.keys[p.current] == p.keys[p.current]
    requires m.kekKeyId.Some? || later.current == p.current
    ensures DataKey(g, Some(later), Rewrap(g, Some(p), m, iv).value) == DataKey(g, Some(p), m)
  {
    RewrapKeepsDataKey(g, p, m, iv, iv);
  }

  // The row holds a wrapped key, but not the id of the master key it was wrapped under.
  predicate FollowsCurrentKey(m: Metadata) {
    m.kekKeyId.None? && m.wrappedDek.Some? && |m.wrappedDek.value| >= IV_LENGTH + TAG_LENGTH
  }

  // Where the rewrapped row opens to under the later ring what it opened to under the earlier one.
  ghost predicate KeyIsKept(g: Gcm, p: Provider, m: Metadata, iv: Iv, later: Provider) {
    var r := Rewrap(g, Some(p), m, iv);
    r.Ok? ==> DataKey(g, Some(later), r.value) == DataKey(g, Some(p), m)
  }

  // A cipher that has one tag for data wrapped under `id` and another for everything else.
  function Telling(id: KeyId, tag: Tag, other: Tag): Gcm {
    Gcm((key: Key, iv: Iv, offset: nat) => 0,
        (key: Key, iv: Iv, aad: string, ciphertext: Bytes) => if aad == WrapAad(id) then tag else other)
  }

  lemma WrapAadTells(a: KeyId, b: KeyId)
    requires a != b
    ensures WrapAad(a) != WrapAad(b)
  {
    var prefix := "local-wrap:";
    assert WrapAad(a)[|prefix|..] == a && WrapAad(b)[|prefix|..] == b;
  }

  // Under such a cipher a key without an id opens for rings with the current key `id` only.
  lemma TellingUnwraps(p: Provider, wrapped: Bytes, id: KeyId, other: Tag)
    requires |wrapped| >= IV_LENGTH + TAG_LENGTH && other != wrapped[|wrapped| - TAG_LENGTH..]
    ensures var r := Unwrap(Telling(id, wrapped[|wrapped| - TAG_LENGTH..], other), p, wrapped, None);
            if p.current == id then r.Ok? else r == Err(NotAuthentic)
  {
    if p.current != id {
      WrapAadTells(p.current, id);
    }
  }

  /**
   * Such a row is left as it is by rewrapping, and every ring with another
   * current key can lose it, even one that still holds the old key: there is a
   * cipher under which the row opened before and does not open now.
   */
  lemma KeylessRowIsLost(p: Provider, m: Metadata, later: Provider, iv: Iv)
    requires m.mode.LocalV1? && FollowsCurrentKey(m) && later.current != p.current
    ensures var wrapped := m.wrappedDek.value;
            var tag: Tag := wrapped[|wrapped| - TAG_LENGTH..];
            var g := Telling(p.current, tag, seq(TAG_LENGTH, i requires 0 <= i < TAG_LENGTH => tag[i] ^ 1));
            && Rewrap(g, Some(p), m, iv) == Ok(m) && DataKey(g, Some(p), m).Ok?
            && DataKey(g, Some(later), m) == Err(NotAuthentic)
  {
    hide Unwrap, Telling;
    var wrapped := m.wrappedDek.value;
    var tag: Tag := wrapped[|wrapped| - TAG_LENGTH..];
    var other: Tag := seq(TAG_LENGTH, i requires 0 <= i < TAG_LENGTH => tag[i] ^ 1);
    assert other[0] == tag[0] ^ 1 != tag[0];
    TellingUnwraps(p, wrapped, p.current, other);
    TellingUnwraps(later, wrapped, p.current, other);
  }

  /**
   * The other master keys can be dropped after rewrapping exactly for the rows
   * that record their key id, and for the others as long as the current key
   * stays current.
   */
  lemma OldKeysCanBeDroppedExactlyWhen(p: Provider, m: Metadata, later: Provider)
    requires m.mode.LocalV1? && p.current in later.keys && later.keys[p.current] == p.keys[p.current]
    ensures (forall g, iv :: KeyIsKept(g, p, m, iv, later)) <==> !FollowsCurrentKey(m) || later.current == p.current
  {
    if FollowsCurrentKey(m) && later.current != p.current {
      var wrapped := m.wrappedDek.value;
      var tag: Tag := wrapped[|wrapped| - TAG_LENGTH..];
      var g := Telling(p.current, tag, seq(TAG_LENGTH, i requires 0 <= i < TAG_LENGTH => tag[i] ^ 1));
      var iv: Iv := wrapped[..IV_LENGTH];
      KeylessRowIsLost(p, m, later, iv);
      assert !KeyIsKept(g, p, m, iv, later);
    } else {
      forall g, iv ensures KeyIsKept(g, p, m, iv, later) {
        if Rewrap(g, Some(p), m, iv).Ok? && (m.kekKeyId.Some? || later.current == p.current) {
          OldKeysCanBeDropped(g, p, m, iv, later);
        }
      }
    }
  }

  // ---- The loops over chunks -------------------------------------------------------

  // Hold back the last 16 bytes seen: they may be the tag.
  method PushCiphertext(decipher: Cipher, chunk: Bytes, pendingTag: Bytes) returns (plaintext: Bytes, pending: Bytes)
    modifies decipher
    ensures decipher.ciphertext + pending == old(decipher.ciphertext) + pendingTag + chunk
    ensures old(decipher.ciphertext) <= decipher.ciphertext
    ensures plaintext ==
            decipher.gcm.Crypt(decipher.key, decipher.iv, |old(decipher.ciphertext)|,
                               decipher.ciphertext[|old(decipher.ciphertext)|..])
    ensures if |pendingTag + chunk| <= TAG_LENGTH then pending == pendingTag + chunk else |pending| == TAG_LENGTH
  {
    var combined := pendingTag + chunk;
    if |combined| <= TAG_LENGTH {
      return [], combined;
    }
    var end := |combined| - TAG_LENGTH;
    assert combined == combined[..end] + combined[end..];
    plaintext := decipher.Decrypt(combined[..end]);
    pending := combined[end..];
  }

  lemma ConcatStep(chunks: seq<Bytes>, n: nat)
    requires n < |chunks|
    ensures Concat(chunks[..n + 1]) == Concat(chunks[..n]) + chunks[n]
  {
    assert chunks[..n + 1][..n] == chunks[..n];
  }

  lemma {:induction false} ConcatConcat(a: seq<Bytes>, b: seq<Bytes>)
    ensures Concat(a + b) == Concat(a) + Concat(b)
  {
    if b == [] {
      assert a + b == a;
    } else {
      var n := |b| - 1;
      assert (a + b)[..|a + b| - 1] == a + b[..n];
      ConcatConcat(a, b[..n]);
    }
  }

  // The state of the decryption loop once the header has been read.
  ghost predicate Deciphering(
    g: Gcm, dek: Bytes, aad: string, consumed: Bytes, decipher: Cipher, pendingTag: Bytes, emitted: Bytes)
    reads decipher
  {
    && |dek| == KEY_LENGTH && |consumed| >= HEADER_LENGTH && HeaderError(consumed).None?
    && decipher.gcm == g && decipher.key == dek && decipher.iv == consumed[5..HEADER_LENGTH] && decipher.aad == aad
    && decipher.ciphertext + pendingTag == consumed[HEADER_LENGTH..]
    && |pendingTag| <= TAG_LENGTH && (decipher.ciphertext != [] ==> |pendingTag| == TAG_LENGTH)
    && emitted == g.Crypt(dek, decipher.iv, 0, decipher.ciphertext)
  }

  // A header error shows in the first 17 bytes and stays.
  lemma HeaderErrorStays(a: Bytes, b: Bytes)
    requires |a| >= HEADER_LENGTH
    ensures HeaderError(a + b) == HeaderError(a) && (a + b)[5..HEADER_LENGTH] == a[5..HEADER_LENGTH]
    ensures (a + b)[HEADER_LENGTH..] == a[HEADER_LENGTH..] + b
  {
    assert (a + b)[..4] == a[..4];
  }

  lemma {:induction false} ConcatPrefix(chunks: seq<Bytes>, n: nat)
    requires n <= |chunks|
    ensures Concat(chunks) == Concat(chunks[..n]) + Concat(chunks[n..])
  {
    assert chunks == chunks[..n] + chunks[n..];
    ConcatConcat(chunks[..n], chunks[n..]);
  }

  // A stream that ends on a header error or a bad key does so whatever follows.
  lemma EarlyFailure(g: Gcm, dek: Bytes, chunks: seq<Bytes>, n: nat, aad: string)
    requires n <= |chunks| && |Concat(chunks[..n])| >= HEADER_LENGTH
    requires HeaderError(Concat(chunks[..n])).Some? || |dek| != KEY_LENGTH
    ensures var error := HeaderError(Concat(chunks[..n]));
            StreamOutcome(g, dek, Concat(chunks), aad)
              == Outcome([], if error.Some? then error else Some(InvalidKeyLength))
  {
    ConcatPrefix(chunks, n);
    HeaderErrorStays(Concat(chunks[..n]), Concat(chunks[n..]));
  }

  lemma DecipherStep(g: Gcm, key: Key, iv: Iv, before: Bytes, after: Bytes)
    requires before <= after
    ensures g.Crypt(key, iv, 0, after) == g.Crypt(key, iv, 0, before) + g.Crypt(key, iv, |before|, after[|before|..])
  {
    assert after == before + after[|before|..];
    CryptConcat(g, key, iv, 0, before, after[|before|..]);
  }

  lemma CutTag(blob: Bytes, start: nat, ciphertext: Bytes, tag: Bytes)
    requires start <= |blob| && blob[start..] == ciphertext + tag
    ensures blob[start..|blob| - |tag|] == ciphertext && blob[|blob| - |tag|..] == tag
  {
    assert |blob| - |tag| == start + |ciphertext|;
    assert blob[start..|blob| - |tag|] == blob[start..][..|ciphertext|];
    assert blob[|blob| - |tag|..] == blob[start..][|ciphertext|..];
  }

  /**
   * The streaming decryptor: whatever the chunking, it emits and fails as
   * `StreamOutcome` says of the concatenated bytes, and emits no empty chunk.
   */
  method DecryptStream(g: Gcm, dek: Bytes, source: seq<Bytes>, aad: string)
    returns (output: seq<Bytes>, error: Option<Error>)
    ensures Outcome(Concat(output), error) == StreamOutcome(g, dek, Concat(source), aad)
    ensures forall c | c in output :: c != []
  {
    output := [];
    var header: Bytes := [];
    var pendingTag: Bytes := [];
    var decipher: Cipher? := null;
    for n := 0 to |source|
      invariant decipher != null ==> fresh(decipher)
      invariant decipher == null ==> header == Concat(source[..n]) && |header| < HEADER_LENGTH && output == []
      invariant decipher != null ==> Deciphering(g, dek, aad, Concat(source[..n]), decipher, pendingTag, Concat(output))
      invariant decipher == null ==> pendingTag == []
      invariant forall c | c in output :: c != []
    {
      var chunk := source[n];
      ConcatStep(source, n);
      ghost var consumed := Concat(source[..n + 1]);
      if decipher == null {
        header := header + chunk;
        if |header| < HEADER_LENGTH {
          continue;
        }
        var failure := HeaderError(header);
        if failure.Some? || |dek| != KEY_LENGTH {
          EarlyFailure(g, dek, source, n + 1, aad);
          return [], if failure.Some? then failure else Some(InvalidKeyLength);
        }
        decipher := new Cipher(g, dek, header[5..HEADER_LENGTH], aad);
        chunk := header[HEADER_LENGTH..];
        header := [];
        assert consumed[HEADER_LENGTH..] == [] + pendingTag + chunk;
      } else {
        HeaderErrorStays(Concat(source[..n]), chunk);
        assert consumed[HEADER_LENGTH..] == decipher.ciphertext + pendingTag + chunk;
      }
      ghost var before := decipher.ciphertext;
      var plaintext: Bytes;
      plaintext, pendingTag := PushCiphertext(decipher, chunk, pendingTag);
      DecipherStep(g, dek, decipher.iv, before, decipher.ciphertext);
      if plaintext != [] {
        assert (output + [plaintext])[..|output|] == output;
        output := output + [plaintext];
      }
    }
    assert source[..|source|] == source;
    if decipher == null || |pendingTag| != TAG_LENGTH {
      error := Some(Truncated);
      return;
    }
    CutTag(Concat(source), HEADER_LENGTH, decipher.ciphertext, pendingTag);
    var tag := decipher.AuthTag();
    error := if tag == pendingTag then None else Some(NotAuthentic);
  }

  /**
   * The streaming encryptor writes, chunk by chunk, exactly the blob that
   * encrypting the whole plaintext at once gives.
   */
  method EncryptStream(g: Gcm, dek: Key, iv: Iv, source: seq<Bytes>, aad: string) returns (output: seq<Bytes>)
    ensures Concat(output) == Blob(g, dek, iv, Concat(source), aad)
    ensures forall c | c in output :: c != []
  {
    var cipher := new Cipher(g, dek, iv, aad);
    output := [Header(iv)];
    assert [Header(iv)][..0] == [];
    for n := 0 to |source|
      invariant cipher.gcm == g && cipher.key == dek && cipher.iv == iv && cipher.aad == aad && fresh(cipher)
      invariant cipher.ciphertext == g.Crypt(dek, iv, 0, Concat(source[..n]))
      invariant Concat(output) == Header(iv) + cipher.ciphertext
      invariant forall c | c in output :: c != []
    {
      ConcatStep(source, n);
      CryptConcat(g, dek, iv, 0, Concat(source[..n]), source[n]);
      var encrypted := cipher.Encrypt(source[n]);
      if encrypted != [] {
        assert (output + [encrypted])[..|output|] == output;
        output := output + [encrypted];
      }
    }
    assert source[..|source|] == source;
    var tag := cipher.AuthTag();
    assert (output + [tag])[..|output|] == output;
    output := output + [tag];
  }

  /**
   * For every chunking of a stored file and all metadata, the stream agrees
   * with decrypting the whole file at once.
   */
  method DecryptStreamFromStorage(g: Gcm, provider: Option<Provider>, source: seq<Bytes>, m: Metadata, aad: string)
    returns (output: seq<Bytes>, error: Option<Error>)
    ensures Outcome(Concat(output), error) == StreamDecryption(g, provider, Concat(source), m, aad)
    ensures Agrees(g, provider, Concat(source), m, aad, Outcome(Concat(output), error))
  {
    if m.mode.NoEncryption? {
      return source, None;
    }
    var dek := DataKey(g, provider, m);
    if dek.Err? {
      return [], Some(dek.error);
    }
    output, error := DecryptStream(g, dek.value, source, aad);
  }

  // Encrypting a stream stores what encrypting all its bytes at once stores.
  method EncryptStreamForStorage(g: Gcm, provider: Option<Provider>, source: seq<Bytes>, aad: string, f: Entropy)
    returns (output: seq<Bytes>, m: Metadata)
    ensures Encrypted(Concat(output), m) == EncryptBuffer(g, provider, Concat(source), aad, f)
  {
    if provider.None? {
      return source, PLAIN;
    }
    m := MetadataFor(g, provider.value, f);
    output := EncryptStream(g, f.dek, f.iv, source, aad);
  }
}
