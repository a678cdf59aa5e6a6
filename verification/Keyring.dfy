/** Envelope encryption over named keys, and what survives key rotation.
    Cryptography is a parameter: any AEAD and any public-key wrap that satisfy
    Sound below. */
module Keyring {
  import opened Keyset
  import opened Envelope

  const CIPHERTEXT_VERSION: byte := 1
  const DEK_SIZE: nat := 32

  // ---------- cryptographic primitives ----------

  /** seal and open: AEAD over (key, nonce, text, associated data).
      wrap and unwrap: RSA-OAEP over (key, label, text); wrap also takes its random seed. */
  datatype Primitives = Primitives(
    seal: (Bytes, Bytes, Bytes, Bytes) -> Bytes,
    open: (Bytes, Bytes, Bytes, Bytes) -> Option<Bytes>,
    publicOf: Bytes -> Bytes,
    modulusSize: Bytes -> nat,
    wrap: (Bytes, Bytes, Bytes, Bytes) -> Bytes,
    unwrap: (Bytes, Bytes, Bytes) -> Option<Bytes>)
  {
    /** Opening undoes sealing and accepts nothing else, as GCM does: for a given
        key, nonce and associated data a ciphertext either is the sealing of one
        plaintext or fails authentication. */
    ghost predicate Sound() {
      && (forall k, n, x, a :: |seal(k, n, x, a)| == |x| + TAG_SIZE)
      && (forall k, n, x, a :: open(k, n, seal(k, n, x, a), a) == Some(x))
      && (forall k, n, c, a :: open(k, n, c, a).Some? ==> c == seal(k, n, open(k, n, c, a).value, a))
      && (forall p, l, d, s :: |wrap(p, l, d, s)| == modulusSize(p))
      && (forall p :: 0 < modulusSize(p) <= MAX_UINT32)
      && (forall q, l, d, s :: |d| == DEK_SIZE ==> unwrap(q, l, wrap(publicOf(q), l, d, s)) == Some(d))
    }
  }

  /** An instance showing that the assumptions are consistent. */
  ghost function Transparent(): (p: Primitives)
    ensures p.Sound()
  {
    var tag: Bytes := seq(TAG_SIZE, _ => 0);
    Primitives(
      (k, n, x, a) => x + tag,
      (k, n, c, a) => if |c| >= TAG_SIZE && c[|c| - TAG_SIZE..] == tag then Some(c[..|c| - TAG_SIZE]) else None,
      q => q,
      p => DEK_SIZE,
      (p, l, d, s) => if |d| == DEK_SIZE then d else seq(DEK_SIZE, _ => 0),
      (q, l, w) => Some(w))
  }

  type Crypto = p: Primitives | p.Sound() ghost witness Transparent()

  /** The randomness one encryption draws. */
  datatype Draw = Draw(dek: Bytes, kekNonce: Bytes, seed: Bytes, nonce: Bytes)

  type Coins = d: Draw | |d.dek| == DEK_SIZE && |d.kekNonce| == NONCE_SIZE && |d.nonce| == NONCE_SIZE
    witness Draw(seq(DEK_SIZE, _ => 0), seq(NONCE_SIZE, _ => 0), [], seq(NONCE_SIZE, _ => 0))

  // ---------- AES-GCM values ----------

  function AeadEncrypt(c: Crypto, key: Bytes, nonce: Bytes, text: Bytes): Bytes {
    [CIPHERTEXT_VERSION] + nonce + c.seal(key, nonce, text, [])
  }

  function AeadDecrypt(c: Crypto, key: Bytes, value: Bytes): Option<Bytes> {
    if |value| < 1 + NONCE_SIZE + TAG_SIZE || value[0] != CIPHERTEXT_VERSION then None
    else c.open(key, value[1..1 + NONCE_SIZE], value[1 + NONCE_SIZE..], [])
  }

  lemma AeadRoundTrip(c: Crypto, key: Bytes, nonce: Bytes, text: Bytes)
    requires |nonce| == NONCE_SIZE
    ensures AeadDecrypt(c, key, AeadEncrypt(c, key, nonce, text)) == Some(text)
    ensures |AeadEncrypt(c, key, nonce, text)| == 1 + NONCE_SIZE + |text| + TAG_SIZE
    ensures |nonce| == 12 && AeadEncrypt(c, key, nonce, text)[0] == 1 && |AeadEncrypt(c, key, nonce, text)| == 29 + |text|
  {
    var v := AeadEncrypt(c, key, nonce, text);
    assert v[1..1 + NONCE_SIZE] == nonce;
    assert v[1 + NONCE_SIZE..] == c.seal(key, nonce, text, []);
  }

  /** Raw AES-GCM output is never taken for an envelope, whatever the key. */
  lemma AeadOutputIsRaw(c: Crypto, key: Bytes, nonce: Bytes, text: Bytes)
    ensures var v := AeadEncrypt(c, key, nonce, text); Parse(v) == Valid(Raw(v))
  {
    var v := AeadEncrypt(c, key, nonce, text);
    assert v[0] == CIPHERTEXT_VERSION;
    if |v| >= 4 { assert v[..4][0] == v[0]; assert MAGIC[0] != v[0]; }
  }

  // ---------- symmetric keyring ----------

  datatype Refusal = BadEnvelope | UnknownKey | DecryptNotAvailable | Unauthentic
  datatype Reading = Opened(text: Bytes, keyID: Bytes) | Refused(keyID: Bytes, why: Refusal)

  /** The key-wrapping label spells its purpose and names the key. */
  lemma LabelNamesKey(keyID: Bytes)
    ensures Label(keyID) == Ascii("jandibat.org/credential-dek/v3") + [0] + keyID
  {
    assert Label(keyID)[..31] == Ascii("jandibat.org/credential-dek/v3") + [0];
  }

  /** Key IDs mapped to AES-GCM key material. */
  datatype Ring = Ring(active: Bytes, keys: map<Bytes, Bytes>, legacy: seq<Bytes>) {
    predicate Valid() {
      && active in keys
      && (forall id :: id in keys ==> 0 < |id| <= MAX_UINT16)
      && (forall i :: 0 <= i < |legacy| ==> legacy[i] in keys)
    }

    function Encrypt(c: Crypto, coins: Coins, text: Bytes): Option<Bytes>
      requires Valid()
    {
      var wrapped := AeadEncrypt(c, keys[active], coins.kekNonce, coins.dek);
      if Marshallable(VERSION_2, active, wrapped, |text|) then
        Some(EncodeWrapped(VERSION_2, active, wrapped, coins.nonce,
               c.seal(coins.dek, coins.nonce, text, WrappedPrefix(VERSION_2, active, wrapped))))
      else None
    }

    function Decrypt(c: Crypto, value: Bytes): Reading
      requires Valid()
    {
      match Parse(value)
      case Invalid(_, _) => Refused([], BadEnvelope)
      case Valid(env) =>
        if !env.enveloped then
          DecryptLegacy(c, value, 0)
        else if env.keyID !in keys then Refused(env.keyID, UnknownKey)
        else if env.version == VERSION_1 then
          (match AeadDecrypt(c, keys[env.keyID], env.ciphertext)
           case Some(text) => Opened(text, env.keyID)
           case None => Refused(env.keyID, Unauthentic))
        else if env.version == VERSION_2 then OpenV2(c, keys[env.keyID], env)
        else Refused(env.keyID, BadEnvelope)
    }

    /** Pre-envelope values: the configured legacy keys in order, first success wins. */
    function DecryptLegacy(c: Crypto, value: Bytes, from: nat): Reading
      requires Valid() && from <= |legacy|
      decreases |legacy| - from
    {
      if from == |legacy| then Refused([], BadEnvelope)
      else
        match AeadDecrypt(c, keys[legacy[from]], value)
        case Some(text) => Opened(text, legacy[from])
        case None => DecryptLegacy(c, value, from + 1)
    }

    predicate NeedsReencryption(value: Bytes, persistedKeyID: Bytes)
      requires Parse(value).Valid?
    {
      var env := Parse(value).env;
      !env.enveloped || env.version != VERSION_2 || env.keyID != active || persistedKeyID != active
    }

    method DecryptLegacyLoop(c: Crypto, value: Bytes) returns (r: Reading)
      requires Valid()
      ensures r == DecryptLegacy(c, value, 0)
    {
      for i := 0 to |legacy|
        invariant DecryptLegacy(c, value, 0) == DecryptLegacy(c, value, i)
      {
        var text := AeadDecrypt(c, keys[legacy[i]], value);
        if text.Some? { return Opened(text.value, legacy[i]); }
      }
      r := Refused([], BadEnvelope);
    }
  }

  function OpenData(c: Crypto, dek: Option<Bytes>, env: Parsed): Reading {
    if dek.None? || |dek.value| != DEK_SIZE then Refused(env.keyID, BadEnvelope)
    else
      match c.open(dek.value, env.nonce, env.ciphertext, env.aad)
      case Some(text) => Opened(text, env.keyID)
      case None => Refused(env.keyID, BadEnvelope)
  }

  function OpenV2(c: Crypto, kek: Bytes, env: Parsed): Reading {
    OpenData(c, AeadDecrypt(c, kek, env.wrapped), env)
  }

  // ---------- asymmetric envelopes ----------

  /** A public key with its private half only in processes that may read. */
  datatype KeyPair = KeyPair(public: Bytes, private: Option<Bytes>)

  function Label(keyID: Bytes): Bytes {
    // "jandibat.org/credential-dek/v3" followed by a zero byte and the key ID
    [0x6A, 0x61, 0x6E, 0x64, 0x69, 0x62, 0x61, 0x74, 0x2E, 0x6F, 0x72, 0x67, 0x2F, 0x63, 0x72, 0x65, 0x64,
     0x65, 0x6E, 0x74, 0x69, 0x61, 0x6C, 0x2D, 0x64, 0x65, 0x6B, 0x2F, 0x76, 0x33, 0x00] + keyID
  }

  datatype Asymmetric = Asymmetric(active: Bytes, keys: map<Bytes, KeyPair>, fallback: Option<Ring>) {
    ghost predicate Valid(c: Crypto) {
      && active in keys
      && (forall id :: id in keys ==> 0 < |id| <= MAX_UINT16)
      && (forall id :: id in keys && keys[id].private.Some? ==> keys[id].public == c.publicOf(keys[id].private.value))
      && (fallback.Some? ==> fallback.value.Valid())
    }

    function Encrypt(c: Crypto, coins: Coins, text: Bytes): Option<Bytes>
      requires Valid(c)
    {
      var wrapped := c.wrap(keys[active].public, Label(active), coins.dek, coins.seed);
      if Marshallable(VERSION_3, active, wrapped, |text|) then
        Some(EncodeWrapped(VERSION_3, active, wrapped, coins.nonce,
               c.seal(coins.dek, coins.nonce, text, WrappedPrefix(VERSION_3, active, wrapped))))
      else None
    }

    function Decrypt(c: Crypto, value: Bytes): Reading
      requires Valid(c)
    {
      match Parse(value)
      case Invalid(_, _) => Refused([], BadEnvelope)
      case Valid(env) =>
        if env.enveloped && env.version == VERSION_3 then
          if env.keyID !in keys then Refused(env.keyID, UnknownKey)
          else if keys[env.keyID].private.None? then Refused(env.keyID, DecryptNotAvailable)
          else OpenData(c, c.unwrap(keys[env.keyID].private.value, Label(env.keyID), env.wrapped), env)
        else if fallback.None? then Refused([], DecryptNotAvailable)
        else fallback.value.Decrypt(c, value)
    }

    predicate NeedsReencryption(value: Bytes, persistedKeyID: Bytes)
      requires Parse(value).Valid?
    {
      var env := Parse(value).env;
      !env.enveloped || env.version != VERSION_3 || env.keyID != active || persistedKeyID != active
    }
  }

  // ---------- either cipher, as the maintenance worker sees it ----------

  datatype Rotator = Symmetric(ring: Ring) | Public(asym: Asymmetric) {
    ghost predicate Valid(c: Crypto) {
      match this
      case Symmetric(ring) => ring.Valid()
      case Public(asym) => asym.Valid(c)
    }

    function Active(): Bytes {
      match this
      case Symmetric(ring) => ring.active
      case Public(asym) => asym.active
    }

    function Encrypt(c: Crypto, coins: Coins, text: Bytes): Option<Bytes>
      requires Valid(c)
    {
      match this
      case Symmetric(ring) => ring.Encrypt(c, coins, text)
      case Public(asym) => asym.Encrypt(c, coins, text)
    }

    function Decrypt(c: Crypto, value: Bytes): Reading
      requires Valid(c)
    {
      match this
      case Symmetric(ring) => ring.Decrypt(c, value)
      case Public(asym) => asym.Decrypt(c, value)
    }

    /** None when the value does not parse. */
    function NeedsReencryption(value: Bytes, persistedKeyID: Bytes): Option<bool> {
      if Parse(value).Invalid? then None
      else
        match this
        case Symmetric(ring) => Some(ring.NeedsReencryption(value, persistedKeyID))
        case Public(asym) => Some(asym.NeedsReencryption(value, persistedKeyID))
    }

    function Reencrypt(c: Crypto, coins: Coins, value: Bytes): Option<Bytes>
      requires Valid(c)
    {
      match Decrypt(c, value)
      case Opened(text, _) => Encrypt(c, coins, text)
      case Refused(_, _) => None
    }

    /** The key material behind one readable key ID of each kind. */
    function RingKey(id: Bytes): Option<Bytes> {
      match this
      case Symmetric(ring) => if id in ring.keys then Some(ring.keys[id]) else None
      case Public(asym) =>
        if asym.fallback.Some? && id in asym.fallback.value.keys then Some(asym.fallback.value.keys[id]) else None
    }

    function LegacyOrder(): seq<Bytes> {
      match this
      case Symmetric(ring) => ring.legacy
      case Public(asym) => if asym.fallback.Some? then asym.fallback.value.legacy else []
    }
  }

  // ---------- reading every generation ----------

  lemma SymmetricWritesAreReadable(c: Crypto, ring: Ring, reader: Rotator, coins: Coins, text: Bytes)
    requires ring.Valid() && reader.Valid(c)
    requires reader.RingKey(ring.active) == Some(ring.keys[ring.active])
    ensures var v := ring.Encrypt(c, coins, text);
            v.Some? ==> reader.Decrypt(c, v.value) == Opened(text, ring.active)
  {
    var wrapped := AeadEncrypt(c, ring.keys[ring.active], coins.kekNonce, coins.dek);
    if Marshallable(VERSION_2, ring.active, wrapped, |text|) {
      var aad := WrappedPrefix(VERSION_2, ring.active, wrapped);
      ParseInvertsWrapped(VERSION_2, ring.active, wrapped, coins.nonce, c.seal(coins.dek, coins.nonce, text, aad));
      AeadRoundTrip(c, ring.keys[ring.active], coins.kekNonce, coins.dek);
    }
  }

  lemma PublicWritesAreReadable(c: Crypto, writer: Asymmetric, reader: Asymmetric, coins: Coins, text: Bytes)
    requires writer.Valid(c) && reader.Valid(c)
    requires writer.active in reader.keys && reader.keys[writer.active].private.Some?
    requires reader.keys[writer.active].public == writer.keys[writer.active].public
    ensures var v := writer.Encrypt(c, coins, text);
            v.Some? ==> reader.Decrypt(c, v.value) == Opened(text, writer.active)
  {
    var wrapped := c.wrap(writer.keys[writer.active].public, Label(writer.active), coins.dek, coins.seed);
    if Marshallable(VERSION_3, writer.active, wrapped, |text|) {
      var aad := WrappedPrefix(VERSION_3, writer.active, wrapped);
      ParseInvertsWrapped(VERSION_3, writer.active, wrapped, coins.nonce, c.seal(coins.dek, coins.nonce, text, aad));
    }
  }

  /** Version-1 envelopes hold an AES-GCM value made with the named key. */
  lemma V1ValuesAreReadable(c: Crypto, reader: Rotator, id: Bytes, key: Bytes, nonce: Bytes, text: Bytes)
    requires reader.Valid(c) && reader.RingKey(id) == Some(key) && |nonce| == NONCE_SIZE
    ensures 0 < |id| <= MAX_UINT16
    ensures reader.Decrypt(c, EncodeV1(id, AeadEncrypt(c, key, nonce, text))) == Opened(text, id)
  {
    ParseInvertsV1(id, AeadEncrypt(c, key, nonce, text));
    AeadRoundTrip(c, key, nonce, text);
  }

  /** No earlier legacy key opens what the key at position i sealed. */
  ghost predicate Separated(c: Crypto, reader: Rotator, i: nat, value: Bytes)
    requires reader.Valid(c) && i < |reader.LegacyOrder()|
  {
    forall j :: 0 <= j < i ==>
      reader.RingKey(reader.LegacyOrder()[j]).Some?
      && AeadDecrypt(c, reader.RingKey(reader.LegacyOrder()[j]).value, value) == None
  }

  lemma RawValuesAreReadable(c: Crypto, reader: Rotator, i: nat, key: Bytes, nonce: Bytes, text: Bytes)
    requires reader.Valid(c) && i < |reader.LegacyOrder()| && |nonce| == NONCE_SIZE
    requires reader.RingKey(reader.LegacyOrder()[i]) == Some(key)
    requires Separated(c, reader, i, AeadEncrypt(c, key, nonce, text))
    ensures reader.Decrypt(c, AeadEncrypt(c, key, nonce, text)) == Opened(text, reader.LegacyOrder()[i])
  {
    var v := AeadEncrypt(c, key, nonce, text);
    AeadOutputIsRaw(c, key, nonce, text);
    AeadRoundTrip(c, key, nonce, text);
    var ring := if reader.Symmetric? then reader.ring else reader.asym.fallback.value;
    for j := 0 to i
      invariant ring.DecryptLegacy(c, v, 0) == ring.DecryptLegacy(c, v, j)
    {
      assert reader.RingKey(reader.LegacyOrder()[j]) == Some(ring.keys[ring.legacy[j]]);
    }
  }

  /** The constructor keeps each legacy key ID once, so a raw value names its
      writer's key exactly when no earlier legacy key opens it. */
  lemma RawValuesNameTheirKeyExactlyWhen(c: Crypto, reader: Rotator, i: nat, key: Bytes, nonce: Bytes, text: Bytes)
    requires reader.Valid(c) && i < |reader.LegacyOrder()| && |nonce| == NONCE_SIZE
    requires reader.RingKey(reader.LegacyOrder()[i]) == Some(key)
    requires forall j :: 0 <= j < i ==> reader.LegacyOrder()[j] != reader.LegacyOrder()[i]
    ensures var v := AeadEncrypt(c, key, nonce, text);
            reader.Decrypt(c, v) == Opened(text, reader.LegacyOrder()[i]) <==> Separated(c, reader, i, v)
  {
    var v := AeadEncrypt(c, key, nonce, text);
    var ring := if reader.Symmetric? then reader.ring else reader.asym.fallback.value;
    AeadOutputIsRaw(c, key, nonce, text);
    if Separated(c, reader, i, v) {
      RawValuesAreReadable(c, reader, i, key, nonce, text);
    } else {
      var j :| 0 <= j < i && !(reader.RingKey(reader.LegacyOrder()[j]).Some?
                               && AeadDecrypt(c, reader.RingKey(reader.LegacyOrder()[j]).value, v) == None);
      EarlierKeyWins(c, ring, v, 0, j);
    }
  }

  lemma {:induction false} EarlierKeyWins(c: Crypto, ring: Ring, v: Bytes, from: nat, j: nat)
    requires ring.Valid() && from <= j < |ring.legacy| && AeadDecrypt(c, ring.keys[ring.legacy[j]], v).Some?
    ensures exists k :: from <= k <= j && ring.DecryptLegacy(c, v, from).Opened?
                        && ring.DecryptLegacy(c, v, from).keyID == ring.legacy[k]
    decreases j - from
  {
    if AeadDecrypt(c, ring.keys[ring.legacy[from]], v).None? {
      EarlierKeyWins(c, ring, v, from + 1, j);
    }
  }

  /** What opens under a wrapped envelope was sealed as a whole: header, key ID,
      wrapped key and text. A changed byte anywhere opens to nothing or to a
      value that someone holding the data key sealed with that very header. */
  lemma OpenedMeansSealed(c: Crypto, reader: Rotator, value: Bytes)
    requires reader.Valid(c) && Parse(value).Valid?
    requires Parse(value).env.enveloped && Parse(value).env.version != VERSION_1
    requires reader.Decrypt(c, value).Opened?
    ensures var env := Parse(value).env;
            var got := reader.Decrypt(c, value);
            && got.keyID == env.keyID
            && |env.keyID| <= MAX_UINT16 && |env.wrapped| <= MAX_UINT32
            && exists dek: Bytes :: |dek| == DEK_SIZE
                 && value == EncodeWrapped(env.version, env.keyID, env.wrapped, env.nonce,
                      c.seal(dek, env.nonce, got.text, WrappedPrefix(env.version, env.keyID, env.wrapped)))
  {
    ParseIsUnambiguous(value);
    var env := Parse(value).env;
    if env.version == VERSION_3 {
      var dek := c.unwrap(reader.asym.keys[env.keyID].private.value, Label(env.keyID), env.wrapped);
      assert |dek.value| == DEK_SIZE;
      assert value == EncodeWrapped(env.version, env.keyID, env.wrapped, env.nonce, c.seal(dek.value, env.nonce, reader.Decrypt(c, value).text, env.aad));
    } else {
      var ring := if reader.Symmetric? then reader.ring else reader.asym.fallback.value;
      var dek := AeadDecrypt(c, ring.keys[env.keyID], env.wrapped);
      assert |dek.value| == DEK_SIZE;
      assert value == EncodeWrapped(env.version, env.keyID, env.wrapped, env.nonce, c.seal(dek.value, env.nonce, reader.Decrypt(c, value).text, env.aad));
    }
  }

  /** A value of one of the four generations, as somebody wrote text under key id. */
  ghost predicate IsRaw(c: Crypto, reader: Rotator, value: Bytes, text: Bytes, id: Bytes)
    requires reader.Valid(c)
  {
    exists i: nat, nonce: Bytes ::
      && i < |reader.LegacyOrder()| && id == reader.LegacyOrder()[i] && reader.RingKey(id).Some? && |nonce| == NONCE_SIZE
      && value == AeadEncrypt(c, reader.RingKey(id).value, nonce, text) && Separated(c, reader, i, value)
  }

  ghost predicate IsV1(c: Crypto, reader: Rotator, value: Bytes, text: Bytes, id: Bytes) {
    && 0 < |id| <= MAX_UINT16 && reader.RingKey(id).Some?
    && exists nonce: Bytes :: |nonce| == NONCE_SIZE && value == EncodeV1(id, AeadEncrypt(c, reader.RingKey(id).value, nonce, text))
  }

  /** The envelope of a text under a data key that comes wrapped. */
  function Sealed(c: Crypto, version: byte, id: Bytes, wrapped: Bytes, dek: Bytes, nonce: Bytes, text: Bytes): Bytes
    requires |id| <= MAX_UINT16 && |wrapped| <= MAX_UINT32
  {
    EncodeWrapped(version, id, wrapped, nonce, c.seal(dek, nonce, text, WrappedPrefix(version, id, wrapped)))
  }

  ghost predicate IsV2(c: Crypto, reader: Rotator, value: Bytes, text: Bytes, id: Bytes) {
    && 0 < |id| <= MAX_UINT16 && reader.RingKey(id).Some?
    && exists dek: Bytes, kekNonce: Bytes, nonce: Bytes ::
         && |dek| == DEK_SIZE && |kekNonce| == NONCE_SIZE && |nonce| == NONCE_SIZE
         && var wrapped := AeadEncrypt(c, reader.RingKey(id).value, kekNonce, dek);
            |wrapped| <= MAX_UINT32 && value == Sealed(c, 2, id, wrapped, dek, nonce, text)
  }

  ghost predicate IsV3(c: Crypto, reader: Rotator, value: Bytes, text: Bytes, id: Bytes) {
    && 0 < |id| <= MAX_UINT16 && reader.Public? && id in reader.asym.keys && reader.asym.keys[id].private.Some?
    && exists wrapped: Bytes, dek: Bytes, nonce: Bytes ::
         && 0 < |wrapped| <= MAX_UINT32 && |dek| == DEK_SIZE && |nonce| == NONCE_SIZE
         && c.unwrap(reader.asym.keys[id].private.value, Label(id), wrapped) == Some(dek)
         && value == Sealed(c, 3, id, wrapped, dek, nonce, text)
  }

  lemma AeadOpensExactly(c: Crypto, key: Bytes, value: Bytes, text: Bytes)
    ensures AeadDecrypt(c, key, value) == Some(text) <==>
              exists nonce: Bytes :: |nonce| == NONCE_SIZE && value == AeadEncrypt(c, key, nonce, text)
  {
    if AeadDecrypt(c, key, value) == Some(text) {
      var nonce := value[1..1 + NONCE_SIZE];
      assert value == [CIPHERTEXT_VERSION] + nonce + value[1 + NONCE_SIZE..];
      assert value == AeadEncrypt(c, key, nonce, text);
    }
    if nonce: Bytes :| |nonce| == NONCE_SIZE && value == AeadEncrypt(c, key, nonce, text) {
      AeadRoundTrip(c, key, nonce, text);
    }
  }

  /** The four generations and nothing else are read, each as what was written. */
  lemma ReadsExactlyWhatWasWritten(c: Crypto, reader: Rotator, value: Bytes, text: Bytes, id: Bytes)
    requires reader.Valid(c)
    ensures reader.Decrypt(c, value) == Opened(text, id) <==>
              || IsRaw(c, reader, value, text, id) || IsV1(c, reader, value, text, id)
              || IsV2(c, reader, value, text, id) || IsV3(c, reader, value, text, id)
  {
    hide Rotator.Decrypt, IsRaw, IsV1, IsV2, IsV3;
    if reader.Decrypt(c, value) == Opened(text, id) { ReadWasWritten(c, reader, value, text, id); }
    if IsRaw(c, reader, value, text, id) { RawIsRead(c, reader, value, text, id); }
    if IsV1(c, reader, value, text, id) { V1IsRead(c, reader, value, text, id); }
    if IsV2(c, reader, value, text, id) { V2IsRead(c, reader, value, text, id); }
    if IsV3(c, reader, value, text, id) { V3IsRead(c, reader, value, text, id); }
  }

  lemma RawIsRead(c: Crypto, reader: Rotator, value: Bytes, text: Bytes, id: Bytes)
    requires reader.Valid(c) && IsRaw(c, reader, value, text, id)
    ensures reader.Decrypt(c, value) == Opened(text, id)
  {
    hide Rotator.Decrypt;
    var i: nat, nonce: Bytes :|
      && i < |reader.LegacyOrder()| && id == reader.LegacyOrder()[i] && reader.RingKey(id).Some? && |nonce| == NONCE_SIZE
      && value == AeadEncrypt(c, reader.RingKey(id).value, nonce, text) && Separated(c, reader, i, value);
    RawValuesAreReadable(c, reader, i, reader.RingKey(id).value, nonce, text);
  }

  lemma V1IsRead(c: Crypto, reader: Rotator, value: Bytes, text: Bytes, id: Bytes)
    requires reader.Valid(c) && IsV1(c, reader, value, text, id)
    ensures reader.Decrypt(c, value) == Opened(text, id)
  {
    hide Rotator.Decrypt;
    var nonce: Bytes :| |nonce| == NONCE_SIZE && value == EncodeV1(id, AeadEncrypt(c, reader.RingKey(id).value, nonce, text));
    V1ValuesAreReadable(c, reader, id, reader.RingKey(id).value, nonce, text);
  }

  lemma V2IsRead(c: Crypto, reader: Rotator, value: Bytes, text: Bytes, id: Bytes)
    requires reader.Valid(c) && IsV2(c, reader, value, text, id)
    ensures reader.Decrypt(c, value) == Opened(text, id)
  {
    var key := reader.RingKey(id).value;
    var dek: Bytes, kekNonce: Bytes, nonce: Bytes :|
      && |dek| == DEK_SIZE && |kekNonce| == NONCE_SIZE && |nonce| == NONCE_SIZE
      && var wrapped := AeadEncrypt(c, key, kekNonce, dek);
         |wrapped| <= MAX_UINT32 && value == Sealed(c, 2, id, wrapped, dek, nonce, text);
    var wrapped := AeadEncrypt(c, key, kekNonce, dek);
    ParseInvertsWrapped(VERSION_2, id, wrapped, nonce, c.seal(dek, nonce, text, WrappedPrefix(2, id, wrapped)));
    AeadRoundTrip(c, key, kekNonce, dek);
  }

  lemma V3IsRead(c: Crypto, reader: Rotator, value: Bytes, text: Bytes, id: Bytes)
    requires reader.Valid(c) && IsV3(c, reader, value, text, id)
    ensures reader.Decrypt(c, value) == Opened(text, id)
  {
    var wrapped: Bytes, dek: Bytes, nonce: Bytes :|
      && 0 < |wrapped| <= MAX_UINT32 && |dek| == DEK_SIZE && |nonce| == NONCE_SIZE
      && c.unwrap(reader.asym.keys[id].private.value, Label(id), wrapped) == Some(dek)
      && value == Sealed(c, 3, id, wrapped, dek, nonce, text);
    ParseInvertsWrapped(VERSION_3, id, wrapped, nonce, c.seal(dek, nonce, text, WrappedPrefix(3, id, wrapped)));
  }

  lemma ReadWasWritten(c: Crypto, reader: Rotator, value: Bytes, text: Bytes, id: Bytes)
    requires reader.Valid(c) && reader.Decrypt(c, value) == Opened(text, id)
    ensures || IsRaw(c, reader, value, text, id) || IsV1(c, reader, value, text, id)
            || IsV2(c, reader, value, text, id) || IsV3(c, reader, value, text, id)
  {
    hide IsRaw, IsV1, IsV2, IsV3;
    ParseIsUnambiguous(value);
    var env := Parse(value).env;
    if reader.Public? && env.enveloped && env.version == VERSION_3 {
      ReadV3(c, reader, value, text, id);
    } else {
      var ring := if reader.Symmetric? then reader.ring else reader.asym.fallback.value;
      assert ring.Decrypt(c, value) == Opened(text, id);
      if !env.enveloped {
        ReadRaw(c, reader, ring, value, text, id, 0);
      } else if env.version == VERSION_1 {
        ReadV1(c, reader, ring, value, text, id);
      } else {
        ReadV2(c, reader, ring, value, text, id);
      }
    }
  }

  ghost predicate RingOf(reader: Rotator, ring: Ring) {
    match reader
    case Symmetric(r) => r == ring
    case Public(asym) => asym.fallback == Some(ring)
  }

  lemma {:induction false} ReadRaw(c: Crypto, reader: Rotator, ring: Ring, value: Bytes, text: Bytes, id: Bytes, from: nat)
    requires reader.Valid(c) && ring.Valid() && RingOf(reader, ring) && from <= |ring.legacy|
    requires ring.DecryptLegacy(c, value, from) == Opened(text, id)
    requires forall j :: 0 <= j < from ==> AeadDecrypt(c, ring.keys[ring.legacy[j]], value) == None
    ensures IsRaw(c, reader, value, text, id)
    decreases |ring.legacy| - from
  {
    var key := ring.keys[ring.legacy[from]];
    if AeadDecrypt(c, key, value).Some? {
      AeadOpensExactly(c, key, value, text);
      assert Separated(c, reader, from, value);
    } else {
      ReadRaw(c, reader, ring, value, text, id, from + 1);
    }
  }

  lemma ReadV1(c: Crypto, reader: Rotator, ring: Ring, value: Bytes, text: Bytes, id: Bytes)
    requires reader.Valid(c) && ring.Valid() && RingOf(reader, ring) && ring.Decrypt(c, value) == Opened(text, id)
    requires Parse(value).env.enveloped && Parse(value).env.version == VERSION_1
    ensures IsV1(c, reader, value, text, id)
  {
    ParseIsUnambiguous(value);
    AeadOpensExactly(c, ring.keys[id], Parse(value).env.ciphertext, text);
  }

  lemma ReadV2(c: Crypto, reader: Rotator, ring: Ring, value: Bytes, text: Bytes, id: Bytes)
    requires reader.Valid(c) && ring.Valid() && RingOf(reader, ring) && ring.Decrypt(c, value) == Opened(text, id)
    requires Parse(value).env.enveloped && Parse(value).env.version != VERSION_1
    ensures IsV2(c, reader, value, text, id)
  {
    ParseIsUnambiguous(value);
    var env := Parse(value).env;
    var dek := AeadDecrypt(c, ring.keys[id], env.wrapped).value;
    AeadOpensExactly(c, ring.keys[id], env.wrapped, dek);
    var kekNonce: Bytes :| |kekNonce| == NONCE_SIZE && env.wrapped == AeadEncrypt(c, ring.keys[id], kekNonce, dek);
    assert value == Sealed(c, 2, id, AeadEncrypt(c, reader.RingKey(id).value, kekNonce, dek), dek, env.nonce, text);
  }

  lemma ReadV3(c: Crypto, reader: Rotator, value: Bytes, text: Bytes, id: Bytes)
    requires reader.Valid(c) && reader.Public? && reader.Decrypt(c, value) == Opened(text, id)
    requires Parse(value).env.enveloped && Parse(value).env.version == VERSION_3
    ensures IsV3(c, reader, value, text, id)
  {
    ParseIsUnambiguous(value);
    var env := Parse(value).env;
    var dek := c.unwrap(reader.asym.keys[id].private.value, Label(id), env.wrapped).value;
    assert value == Sealed(c, 3, id, env.wrapped, dek, env.nonce, text);
  }

  /** A keyring's value is a hundred bytes longer than the active key's ID and the text:
      a header of 11 bytes, a wrapped data key of 32 + 29, a nonce of 12 and a tag of 16. */
  lemma SymmetricValueSize(c: Crypto, ring: Ring, coins: Coins, text: Bytes)
    requires ring.Valid()
    ensures var v := ring.Encrypt(c, coins, text);
            v.Some? ==> |v.value| == 100 + |ring.active| + |text| && BigEndian(v.value[7..11]) == 61
  {
    AeadRoundTrip(c, ring.keys[ring.active], coins.kekNonce, coins.dek);
    var wrapped := AeadEncrypt(c, ring.keys[ring.active], coins.kekNonce, coins.dek);
    if Marshallable(VERSION_2, ring.active, wrapped, |text|) {
      EnvelopesAreMarked(ring.active, [], VERSION_2, wrapped, coins.nonce,
                         c.seal(coins.dek, coins.nonce, text, WrappedPrefix(VERSION_2, ring.active, wrapped)));
    }
  }

  // ---------- what needs no migration ----------

  /** Version 2 for a keyring, version 3 for public keys. */
  function OwnVersion(r: Rotator): byte { if r.Symmetric? then 2 else 3 }

  /** A wrapped envelope of the cipher's own version under its active key. */
  ghost predicate OwnEncoding(r: Rotator, value: Bytes) {
    && 0 < |r.Active()| <= MAX_UINT16
    && exists wrapped: Bytes, nonce: Bytes, sealed: Bytes ::
         && 0 < |wrapped| <= MAX_UINT32 && |nonce| == NONCE_SIZE && |sealed| >= TAG_SIZE
         && value == EncodeWrapped(OwnVersion(r), r.Active(), wrapped, nonce, sealed)
  }

  /** A record needs no migration if and only if it names the active key and holds
      the cipher's own kind of envelope under that key. */
  lemma CurrentExactlyWhen(c: Crypto, r: Rotator, value: Bytes, keyID: Bytes)
    requires r.Valid(c)
    ensures r.NeedsReencryption(value, keyID) == Some(false) <==> keyID == r.Active() && OwnEncoding(r, value)
    ensures r.NeedsReencryption(value, keyID) == None <==> Ascii("JDBK") <= value && !(Parse(value).Valid? && Parse(value).env.enveloped)
  {
    hide OwnEncoding;
    RawExactlyWhen(value);
    if r.NeedsReencryption(value, keyID) == Some(false) { CurrentIsOwn(c, r, value, keyID); }
    if OwnEncoding(r, value) { OwnIsParsed(r, value); }
    if Parse(value).Valid? && !Parse(value).env.enveloped { assert Parse(value) == Valid(Raw(value)); }
  }

  lemma CurrentIsOwn(c: Crypto, r: Rotator, value: Bytes, keyID: Bytes)
    requires r.Valid(c) && r.NeedsReencryption(value, keyID) == Some(false)
    ensures OwnEncoding(r, value)
  {
    ParseIsUnambiguous(value);
    var env := Parse(value).env;
    assert value == EncodeWrapped(OwnVersion(r), r.Active(), env.wrapped, env.nonce, env.ciphertext);
  }

  lemma OwnIsParsed(r: Rotator, value: Bytes)
    requires OwnEncoding(r, value)
    ensures Parse(value).Valid? && Parse(value).env.enveloped
    ensures Parse(value).env.version == OwnVersion(r) && Parse(value).env.keyID == r.Active()
  {
    var wrapped: Bytes, nonce: Bytes, sealed: Bytes :|
      && 0 < |wrapped| <= MAX_UINT32 && |nonce| == NONCE_SIZE && |sealed| >= TAG_SIZE
      && value == EncodeWrapped(OwnVersion(r), r.Active(), wrapped, nonce, sealed);
    ParseInvertsWrapped(OwnVersion(r), r.Active(), wrapped, nonce, sealed);
  }

  // ---------- re-encryption and histories of it ----------

  /** next can read what prev writes: the key ID kept its material. */
  ghost predicate CanRead(next: Rotator, prev: Rotator) {
    match prev
    case Symmetric(ring) => ring.active in ring.keys && next.RingKey(ring.active) == Some(ring.keys[ring.active])
    case Public(asym) =>
      && next.Public? && asym.active in asym.keys && asym.active in next.asym.keys
      && next.asym.keys[asym.active].private.Some?
      && next.asym.keys[asym.active].public == asym.keys[asym.active].public
  }

  lemma WritesAreReadable(c: Crypto, writer: Rotator, reader: Rotator, coins: Coins, text: Bytes)
    requires writer.Valid(c) && reader.Valid(c) && CanRead(reader, writer)
    ensures var v := writer.Encrypt(c, coins, text);
            v.Some? ==> reader.Decrypt(c, v.value) == Opened(text, writer.Active())
  {
    match writer
    case Symmetric(ring) => SymmetricWritesAreReadable(c, ring, reader, coins, text);
    case Public(asym) => PublicWritesAreReadable(c, asym, reader.asym, coins, text);
  }

  lemma WritesAreCurrent(c: Crypto, writer: Rotator, coins: Coins, text: Bytes)
    requires writer.Valid(c)
    ensures var v := writer.Encrypt(c, coins, text);
            v.Some? ==> v.value != [] && writer.NeedsReencryption(v.value, writer.Active()) == Some(false)
  {
    match writer
    case Symmetric(ring) =>
      var wrapped := AeadEncrypt(c, ring.keys[ring.active], coins.kekNonce, coins.dek);
      if Marshallable(VERSION_2, ring.active, wrapped, |text|) {
        ParseInvertsWrapped(VERSION_2, ring.active, wrapped, coins.nonce,
                            c.seal(coins.dek, coins.nonce, text, WrappedPrefix(VERSION_2, ring.active, wrapped)));
      }
    case Public(asym) =>
      var wrapped := c.wrap(asym.keys[asym.active].public, Label(asym.active), coins.dek, coins.seed);
      if Marshallable(VERSION_3, asym.active, wrapped, |text|) {
        ParseInvertsWrapped(VERSION_3, asym.active, wrapped, coins.nonce,
                            c.seal(coins.dek, coins.nonce, text, WrappedPrefix(VERSION_3, asym.active, wrapped)));
      }
  }

  /** How long the wrapped data key is. */
  function WrappedSize(c: Crypto, r: Rotator): nat
    requires r.Valid(c)
  {
    match r
    case Symmetric(_) => 1 + NONCE_SIZE + DEK_SIZE + TAG_SIZE
    case Public(asym) => c.modulusSize(asym.keys[asym.active].public)
  }

  /** The envelope of a text of n bytes is no longer than a machine integer can say. */
  predicate Fits(c: Crypto, r: Rotator, n: nat)
    requires r.Valid(c)
  {
    V2_HEADER + |r.Active()| + WrappedSize(c, r) + NONCE_SIZE + n + TAG_SIZE <= MAX_INT
  }

  /** Encryption succeeds exactly when the envelope fits, which every text does that
      leaves room for the longest key ID and wrapped key. */
  lemma EncryptsExactlyWhen(c: Crypto, r: Rotator, coins: Coins, text: Bytes)
    requires r.Valid(c)
    ensures r.Encrypt(c, coins, text).Some? <==> Fits(c, r, |text|)
    ensures |text| <= MAX_INT - V2_HEADER - MAX_UINT16 - MAX_UINT32 - NONCE_SIZE - TAG_SIZE ==> Fits(c, r, |text|)
  {
    match r
    case Symmetric(ring) =>
      var wrapped := AeadEncrypt(c, ring.keys[ring.active], coins.kekNonce, coins.dek);
      AeadRoundTrip(c, ring.keys[ring.active], coins.kekNonce, coins.dek);
      assert |wrapped| == WrappedSize(c, r);
    case Public(asym) =>
      var wrapped := c.wrap(asym.keys[asym.active].public, Label(asym.active), coins.dek, coins.seed);
      assert |wrapped| == WrappedSize(c, r);
  }

  /** Whether a value can be re-encrypted does not depend on the randomness drawn. */
  lemma ReencryptIgnoresCoins(c: Crypto, r: Rotator, x: Coins, y: Coins, value: Bytes)
    requires r.Valid(c)
    ensures r.Reencrypt(c, x, value).Some? == r.Reencrypt(c, y, value).Some?
  {
    match r
    case Symmetric(ring) =>
      AeadRoundTrip(c, ring.keys[ring.active], x.kekNonce, x.dek);
      AeadRoundTrip(c, ring.keys[ring.active], y.kekNonce, y.dek);
    case Public(asym) =>
  }

  /** One re-encryption keeps the plaintext, moves the value to the active key
      and leaves nothing more to migrate. */
  lemma ReencryptKeepsPlaintext(c: Crypto, r: Rotator, coins: Coins, value: Bytes)
    requires r.Valid(c) && CanRead(r, r)
    ensures var v := r.Reencrypt(c, coins, value);
            v.Some? ==>
              && r.Decrypt(c, value).Opened?
              && r.Decrypt(c, v.value) == Opened(r.Decrypt(c, value).text, r.Active())
              && r.NeedsReencryption(v.value, r.Active()) == Some(false)
              && v.value != []
  {
    if r.Decrypt(c, value).Opened? {
      WritesAreReadable(c, r, r, coins, r.Decrypt(c, value).text);
      WritesAreCurrent(c, r, coins, r.Decrypt(c, value).text);
    }
  }

  /** A history of configurations, each able to read its own and its
      predecessor's writes. */
  ghost predicate Chain(c: Crypto, history: seq<Rotator>, coins: seq<Coins>)
    decreases |history|
  {
    && |coins| == |history|
    && (history != [] ==>
      && history[0].Valid(c) && CanRead(history[0], history[0])
      && (|history| > 1 ==> CanRead(history[1], history[0]))
      && Chain(c, history[1..], coins[1..]))
  }

  /** Re-encrypting under each configuration in turn. */
  ghost function Rotate(c: Crypto, value: Bytes, history: seq<Rotator>, coins: seq<Coins>): Option<Bytes>
    requires Chain(c, history, coins)
    decreases |history|
  {
    if history == [] then Some(value)
    else
      match history[0].Reencrypt(c, coins[0], value)
      case None => None
      case Some(v) => Rotate(c, v, history[1..], coins[1..])
  }

  ghost predicate Settled(c: Crypto, r: Rotator, value: Bytes, text: Bytes) {
    && r.Valid(c)
    && r.Decrypt(c, value) == Opened(text, r.Active())
    && r.NeedsReencryption(value, r.Active()) == Some(false)
  }

  /** One step of a history leaves a value that the next configuration, if any,
      reads as the same plaintext. */
  lemma HistoryStep(c: Crypto, r: Rotator, coins: Coins, value: Bytes, text: Bytes, id: Bytes)
    requires r.Valid(c) && CanRead(r, r) && r.Decrypt(c, value) == Opened(text, id)
    ensures var v := r.Reencrypt(c, coins, value);
            v.Some? ==>
              && Settled(c, r, v.value, text)
              && forall next: Rotator :: next.Valid(c) && CanRead(next, r) ==> next.Decrypt(c, v.value) == Opened(text, r.Active())
  {
    ReencryptKeepsPlaintext(c, r, coins, value);
    forall next: Rotator | next.Valid(c) && CanRead(next, r)
      ensures r.Reencrypt(c, coins, value).Some? ==>
                next.Decrypt(c, r.Reencrypt(c, coins, value).value) == Opened(text, r.Active())
    {
      WritesAreReadable(c, r, next, coins, text);
    }
  }

  /** Taking the first configuration off a history. */
  lemma RotateUnfolds(c: Crypto, value: Bytes, history: seq<Rotator>, coins: seq<Coins>)
    requires Chain(c, history, coins) && history != []
    ensures Chain(c, history[1..], coins[1..])
    ensures history[0].Valid(c) && CanRead(history[0], history[0])
    ensures |history| > 1 ==> history[1].Valid(c) && CanRead(history[1], history[0])
    ensures match history[0].Reencrypt(c, coins[0], value)
            case None => Rotate(c, value, history, coins) == None
            case Some(v) => Rotate(c, value, history, coins) == Rotate(c, v, history[1..], coins[1..])
  {
    if |history| > 1 {
      assert history[1..][0] == history[1];
    }
  }

  /** Over every history of rotations the plaintext survives, the last active
      key is named as the writer, and nothing is left to migrate. */
  lemma {:induction false} RotationHistoryKeepsPlaintext(c: Crypto, value: Bytes, history: seq<Rotator>, coins: seq<Coins>, text: Bytes, id: Bytes)
    requires Chain(c, history, coins) && history != []
    requires history[0].Decrypt(c, value) == Opened(text, id)
    ensures var v := Rotate(c, value, history, coins);
            v.Some? ==> Settled(c, history[|history| - 1], v.value, text)
    decreases |history|
  {
    RotateUnfolds(c, value, history, coins);
    HistoryStep(c, history[0], coins[0], value, text, id);
    hide Rotator.Valid, Rotator.Decrypt, Rotator.Reencrypt, Chain;
    var v := history[0].Reencrypt(c, coins[0], value);
    if v.Some? && |history| > 1 {
      RotationHistoryKeepsPlaintext(c, v.value, history[1..], coins[1..], text, history[0].Active());
    }
  }

  /** A history goes through to its end exactly when the text's envelope fits under
      every configuration of it. */
  lemma {:induction false} RotationSucceedsExactlyWhen(c: Crypto, value: Bytes, history: seq<Rotator>, coins: seq<Coins>, text: Bytes, id: Bytes)
    requires Chain(c, history, coins)
    requires history != [] ==> history[0].Decrypt(c, value) == Opened(text, id)
    ensures Rotate(c, value, history, coins).Some? <==> forall r :: r in history ==> r.Valid(c) && Fits(c, r, |text|)
    decreases |history|
  {
    if history != [] {
      var r, rest := history[0], history[1..];
      assert history == [r] + rest;
      RotateUnfolds(c, value, history, coins);
      HistoryStep(c, r, coins[0], value, text, id);
      EncryptsExactlyWhen(c, r, coins[0], text);
      hide Rotator.Valid, Rotator.Decrypt, Chain, Fits;
      var v := r.Reencrypt(c, coins[0], value);
      if v.Some? { RotationSucceedsExactlyWhen(c, v.value, rest, coins[1..], text, r.Active()); }
    }
  }
}
