/** The byte layout of credential envelopes: magic, version, big-endian lengths,
    key ID, wrapped data key, nonce and ciphertext. */
module Envelope {
  import opened Keyset

  type byte = b: int | 0 <= b < 256
  type Bytes = seq<byte>

  const MAGIC: Bytes := [0x4A, 0x44, 0x42, 0x4B]
  const VERSION_1: byte := 1
  const VERSION_2: byte := 2
  const VERSION_3: byte := 3
  const V1_HEADER: nat := 7
  const V2_HEADER: nat := 11
  const NONCE_SIZE: nat := 12
  const TAG_SIZE: nat := 16
  const MAX_UINT16: nat := 0xFFFF
  const MAX_UINT32: nat := 0xFFFF_FFFF
  const MAX_INT: int := 0x7FFF_FFFF_FFFF_FFFF

  // ---------- big-endian integers ----------

  function PutUint16(n: nat): (b: Bytes)
    requires n <= MAX_UINT16
    ensures |b| == 2 && Uint16(b) == n
  {
    [n / 256, n % 256]
  }

  function Uint16(b: Bytes): (n: nat)
    requires |b| == 2
    ensures n <= MAX_UINT16
  {
    b[0] as int * 256 + b[1]
  }

  function PutUint32(n: nat): (b: Bytes)
    requires n <= MAX_UINT32
    ensures |b| == 4 && Uint32(b) == n
  {
    var b := PutUint16(n / 65536) + PutUint16(n % 65536);
    assert b[..2] == PutUint16(n / 65536) && b[2..] == PutUint16(n % 65536);
    b
  }

  function Uint32(b: Bytes): (n: nat)
    requires |b| == 4
    ensures n <= MAX_UINT32
  {
    Uint16(b[..2]) * 65536 + Uint16(b[2..])
  }

  lemma Uint16Unique(b: Bytes)
    requires |b| == 2
    ensures PutUint16(Uint16(b)) == b
  {
  }

  lemma Uint32Unique(b: Bytes)
    requires |b| == 4
    ensures PutUint32(Uint32(b)) == b
  {
    var hi, lo := b[..2], b[2..];
    Uint16Unique(hi);
    Uint16Unique(lo);
    assert Uint32(b) / 65536 == Uint16(hi) && Uint32(b) % 65536 == Uint16(lo);
    assert b == hi + lo;
  }

  // ---------- layouts ----------

  /** The historical layout: header, key ID, opaque ciphertext. */
  function EncodeV1(keyID: Bytes, ciphertext: Bytes): Bytes
    requires |keyID| <= MAX_UINT16
  {
    MAGIC + [VERSION_1] + PutUint16(|keyID|) + keyID + ciphertext
  }

  /** The part of a wrapped envelope that is authenticated as associated data. */
  function WrappedPrefix(version: byte, keyID: Bytes, wrapped: Bytes): (p: Bytes)
    requires |keyID| <= MAX_UINT16 && |wrapped| <= MAX_UINT32
    ensures |p| == V2_HEADER + |keyID| + |wrapped|
  {
    MAGIC + [version] + PutUint16(|keyID|) + PutUint32(|wrapped|) + keyID + wrapped
  }

  function EncodeWrapped(version: byte, keyID: Bytes, wrapped: Bytes, nonce: Bytes, sealed: Bytes): Bytes
    requires |keyID| <= MAX_UINT16 && |wrapped| <= MAX_UINT32
  {
    WrappedPrefix(version, keyID, wrapped) + nonce + sealed
  }

  /** What a run of bytes is worth when the first one counts most. */
  function BigEndian(b: Bytes): (n: nat) {
    if b == [] then 0 else BigEndian(b[..|b| - 1]) * 256 + b[|b| - 1]
  }

  lemma BigEndianPairs(b: Bytes)
    ensures |b| == 2 ==> BigEndian(b) == b[0] as int * 256 + b[1] as int
    ensures |b| == 4 ==> BigEndian(b) == ((b[0] as int * 256 + b[1] as int) * 256 + b[2] as int) * 256 + b[3] as int
  {
    if |b| == 2 {
      assert b[..1][..0] == [] && BigEndian(b[..1]) == b[0] as int;
    }
    if |b| == 4 {
      assert b[..3][..2] == b[..2] && b[..2][..1] == b[..1] && b[..1][..0] == [];
      assert BigEndian(b[..1]) == b[0] as int;
      assert BigEndian(b[..2]) == b[0] as int * 256 + b[1] as int;
      assert BigEndian(b[..3]) == BigEndian(b[..2]) * 256 + b[2] as int;
    }
  }

  /** The letters JDBK open every envelope; the byte after them is the version. */
  lemma EnvelopesAreMarked(keyID: Bytes, ciphertext: Bytes, version: byte, wrapped: Bytes, nonce: Bytes, sealed: Bytes)
    requires |keyID| <= MAX_UINT16 && |wrapped| <= MAX_UINT32
    ensures Ascii("JDBK") + [1] <= EncodeV1(keyID, ciphertext) && |EncodeV1(keyID, ciphertext)| == 7 + |keyID| + |ciphertext|
    ensures BigEndian(EncodeV1(keyID, ciphertext)[5..7]) == |keyID|
    ensures var v := EncodeWrapped(version, keyID, wrapped, nonce, sealed);
            && Ascii("JDBK") + [version] <= v && |v| == 11 + |keyID| + |wrapped| + |nonce| + |sealed|
            && BigEndian(v[5..7]) == |keyID| && BigEndian(v[7..11]) == |wrapped|
  {
    assert Ascii("JDBK") == MAGIC;
    var v1, v := EncodeV1(keyID, ciphertext), EncodeWrapped(version, keyID, wrapped, nonce, sealed);
    assert v1[5..7] == PutUint16(|keyID|) && v[5..7] == PutUint16(|keyID|) && v[7..11] == PutUint32(|wrapped|);
    BigEndianPairs(v1[5..7]);
    BigEndianPairs(v[5..7]);
    BigEndianPairs(v[7..11]);
  }

  /** The bytes of a text of plain letters. */
  function Ascii(s: string): Bytes {
    seq(|s|, i requires 0 <= i < |s| => if s[i] as int < 256 then s[i] as int as byte else 0)
  }

  datatype Parsed = Parsed(version: byte, keyID: Bytes, ciphertext: Bytes, wrapped: Bytes,
                           nonce: Bytes, aad: Bytes, enveloped: bool)

  datatype Defect = TruncatedHeader | EmptyKeyOrCiphertext | UnsupportedVersion
                  | TruncatedWrappedHeader | BadKeyID | BadWrappedKey | TruncatedCiphertext

  /** A failed parse still reports the version when the header was long enough. */
  datatype ParseResult = Valid(env: Parsed) | Invalid(version: Option<byte>, defect: Defect)

  function Raw(value: Bytes): Parsed {
    Parsed(0, [], value, [], [], [], false)
  }

  function Parse(value: Bytes): ParseResult {
    if |value| < |MAGIC| || value[..4] != MAGIC then Valid(Raw(value))
    else if |value| < V1_HEADER then Invalid(None, TruncatedHeader)
    else
      var version := value[4];
      var keyIDLength := Uint16(value[5..7]);
      if version == VERSION_1 then
        var payload := V1_HEADER + keyIDLength;
        if keyIDLength == 0 || payload >= |value| then Invalid(Some(version), EmptyKeyOrCiphertext)
        else Valid(Parsed(version, value[V1_HEADER..payload], value[payload..], [], [], [], true))
      else if version == VERSION_2 || version == VERSION_3 then
        ParseWrapped(value, keyIDLength, version)
      else Invalid(Some(version), UnsupportedVersion)
  }

  function ParseWrapped(value: Bytes, keyIDLength: nat, version: byte): ParseResult {
    if |value| < V2_HEADER then Invalid(Some(version), TruncatedWrappedHeader)
    else if keyIDLength == 0 || keyIDLength > |value| - V2_HEADER then Invalid(Some(version), BadKeyID)
    else
      var wrappedOffset := V2_HEADER + keyIDLength;
      var wrappedLength := Uint32(value[7..11]);
      if wrappedLength == 0 || wrappedLength > |value| - wrappedOffset then Invalid(Some(version), BadWrappedKey)
      else
        var nonceOffset := wrappedOffset + wrappedLength;
        if |value| - nonceOffset < NONCE_SIZE + TAG_SIZE then Invalid(Some(version), TruncatedCiphertext)
        else Valid(Parsed(version, value[V2_HEADER..wrappedOffset], value[nonceOffset + NONCE_SIZE..],
                          value[wrappedOffset..nonceOffset], value[nonceOffset..nonceOffset + NONCE_SIZE],
                          value[..nonceOffset], true))
  }

  /** Whatever does not open with the letters is taken as it is. */
  lemma RawExactlyWhen(value: Bytes)
    ensures Parse(value) == Valid(Raw(value)) <==> !(Ascii("JDBK") <= value)
  {
    assert Ascii("JDBK") == MAGIC;
    if |value| >= 4 { assert MAGIC <= value <==> value[..4] == MAGIC; }
  }

  /** The layout that a parsed value stands for. */
  function Reassemble(env: Parsed): Bytes
    requires |env.keyID| <= MAX_UINT16 && |env.wrapped| <= MAX_UINT32
  {
    if !env.enveloped then env.ciphertext
    else if env.version == VERSION_1 then EncodeV1(env.keyID, env.ciphertext)
    else EncodeWrapped(env.version, env.keyID, env.wrapped, env.nonce, env.ciphertext)
  }

  // ---------- parsing inverts encoding ----------

  lemma ParseInvertsV1(keyID: Bytes, ciphertext: Bytes)
    requires 0 < |keyID| <= MAX_UINT16 && ciphertext != []
    ensures Parse(EncodeV1(keyID, ciphertext)) == Valid(Parsed(VERSION_1, keyID, ciphertext, [], [], [], true))
  {
    var v := EncodeV1(keyID, ciphertext);
    assert v[..4] == MAGIC;
    assert v[5..7] == PutUint16(|keyID|);
    assert v[7..7 + |keyID|] == keyID;
    assert v[7 + |keyID|..] == ciphertext;
  }

  /** Both wrapped versions parse back to their fields, and the slice handed to
      the AEAD as associated data is exactly the encoded prefix. */
  lemma ParseInvertsWrapped(version: byte, keyID: Bytes, wrapped: Bytes, nonce: Bytes, sealed: Bytes)
    requires version == VERSION_2 || version == VERSION_3
    requires 0 < |keyID| <= MAX_UINT16 && 0 < |wrapped| <= MAX_UINT32
    requires |nonce| == NONCE_SIZE && |sealed| >= TAG_SIZE
    ensures Parse(EncodeWrapped(version, keyID, wrapped, nonce, sealed))
         == Valid(Parsed(version, keyID, sealed, wrapped, nonce, WrappedPrefix(version, keyID, wrapped), true))
  {
    var p := WrappedPrefix(version, keyID, wrapped);
    var v := EncodeWrapped(version, keyID, wrapped, nonce, sealed);
    var w := V2_HEADER + |keyID|;
    var n := w + |wrapped|;
    assert p[..4] == MAGIC && p[4] == version;
    assert p[5..7] == PutUint16(|keyID|);
    assert p[7..11] == PutUint32(|wrapped|);
    assert p[11..w] == keyID;
    assert p[w..n] == wrapped;
    assert v[..n] == p;
    assert v[..4] == p[..4] && v[5..7] == p[5..7] && v[7..11] == p[7..11];
    assert v[11..w] == p[11..w] && v[w..n] == p[w..n];
    assert v[n..n + NONCE_SIZE] == nonce;
    assert v[n + NONCE_SIZE..] == sealed;
  }

  lemma V1IsUnambiguous(value: Bytes)
    requires Parse(value).Valid? && Parse(value).env.enveloped && value[4] == VERSION_1
    ensures var env := Parse(value).env;
            0 < |env.keyID| <= MAX_UINT16 && env.ciphertext != [] && EncodeV1(env.keyID, env.ciphertext) == value
  {
    Uint16Unique(value[5..7]);
    var payload := V1_HEADER + Uint16(value[5..7]);
    assert value == value[..4] + [value[4]] + value[5..7] + value[7..payload] + value[payload..];
  }

  lemma WrappedIsUnambiguous(value: Bytes)
    requires Parse(value).Valid? && Parse(value).env.enveloped && value[4] != VERSION_1
    ensures var env := Parse(value).env;
            && 0 < |env.keyID| <= MAX_UINT16 && 0 < |env.wrapped| <= MAX_UINT32
            && |env.nonce| == NONCE_SIZE && |env.ciphertext| >= TAG_SIZE
            && env.aad == WrappedPrefix(env.version, env.keyID, env.wrapped)
            && EncodeWrapped(env.version, env.keyID, env.wrapped, env.nonce, env.ciphertext) == value
  {
    Uint16Unique(value[5..7]);
    Uint32Unique(value[7..11]);
    var w := V2_HEADER + Uint16(value[5..7]);
    var n := w + Uint32(value[7..11]);
    var env := Parse(value).env;
    assert env.aad == value[..n];
    assert value[..n] == value[..4] + [value[4]] + value[5..7] + value[7..11] + value[11..w] + value[w..n];
    assert value == value[..n] + value[n..n + NONCE_SIZE] + value[n + NONCE_SIZE..];
  }

  /** No two readings of one accepted value: encoding what was parsed gives back
      the same bytes, so distinct accepted values parse to distinct fields. */
  lemma ParseIsUnambiguous(value: Bytes)
    requires Parse(value).Valid?
    ensures var env := Parse(value).env;
            |env.keyID| <= MAX_UINT16 && |env.wrapped| <= MAX_UINT32 && Reassemble(env) == value
    ensures var env := Parse(value).env;
            env.enveloped ==> env.keyID != [] && env.ciphertext != []
    ensures var env := Parse(value).env;
            env.enveloped && env.version != VERSION_1 ==>
              |env.nonce| == NONCE_SIZE && |env.ciphertext| >= TAG_SIZE && env.wrapped != []
              && env.aad == WrappedPrefix(env.version, env.keyID, env.wrapped)
  {
    if Parse(value).env.enveloped {
      if value[4] == VERSION_1 {
        V1IsUnambiguous(value);
      } else {
        WrappedIsUnambiguous(value);
      }
    }
  }

  lemma ParseIsInjective(a: Bytes, b: Bytes)
    requires Parse(a).Valid? && Parse(a) == Parse(b)
    ensures a == b
  {
    ParseIsUnambiguous(a);
    ParseIsUnambiguous(b);
  }

  /** Exactly which byte strings are accepted as envelopes. */
  lemma AcceptedEnvelopes(value: Bytes)
    ensures (Parse(value).Valid? && Parse(value).env.enveloped) <==>
      || (exists keyID: Bytes, ct: Bytes ::
            0 < |keyID| <= MAX_UINT16 && ct != [] && value == EncodeV1(keyID, ct))
      || (exists version: byte, keyID: Bytes, wrapped: Bytes, nonce: Bytes, sealed: Bytes ::
            && (version == VERSION_2 || version == VERSION_3)
            && 0 < |keyID| <= MAX_UINT16 && 0 < |wrapped| <= MAX_UINT32
            && |nonce| == NONCE_SIZE && |sealed| >= TAG_SIZE
            && value == EncodeWrapped(version, keyID, wrapped, nonce, sealed))
  {
    if Parse(value).Valid? && Parse(value).env.enveloped {
      ParseIsUnambiguous(value);
      var env := Parse(value).env;
      if env.version == VERSION_1 {
        assert value == EncodeV1(env.keyID, env.ciphertext);
      } else {
        assert value == EncodeWrapped(env.version, env.keyID, env.wrapped, env.nonce, env.ciphertext);
      }
    }
    if keyID: Bytes, ct: Bytes :|
      0 < |keyID| <= MAX_UINT16 && ct != [] && value == EncodeV1(keyID, ct) {
      ParseInvertsV1(keyID, ct);
    }
    if version: byte, keyID: Bytes, wrapped: Bytes, nonce: Bytes, sealed: Bytes :|
      && (version == VERSION_2 || version == VERSION_3)
      && 0 < |keyID| <= MAX_UINT16 && 0 < |wrapped| <= MAX_UINT32
      && |nonce| == NONCE_SIZE && |sealed| >= TAG_SIZE
      && value == EncodeWrapped(version, keyID, wrapped, nonce, sealed) {
      ParseInvertsWrapped(version, keyID, wrapped, nonce, sealed);
    }
  }

  // ---------- the marshal functions, filling one buffer in place ----------

  method Copy(dst: array<byte>, at: nat, src: Bytes)
    requires at + |src| <= dst.Length
    modifies dst
    ensures dst[..] == old(dst[..at]) + src + old(dst[at + |src|..])
  {
    for i := 0 to |src|
      invariant forall k :: at <= k < at + i ==> dst[k] == src[k - at]
      invariant forall k :: 0 <= k < dst.Length && !(at <= k < at + i) ==> dst[k] == old(dst[k])
    {
      dst[at + i] := src[i];
    }
  }

  method MarshalKeyEnvelope(keyID: Bytes, ciphertext: Bytes) returns (r: Option<Bytes>)
    ensures r == if 0 < |keyID| <= MAX_UINT16 && ciphertext != [] then Some(EncodeV1(keyID, ciphertext)) else None
  {
    if |keyID| == 0 || |keyID| > MAX_UINT16 || |ciphertext| == 0 { return None; }
    var result := new byte[V1_HEADER + |keyID| + |ciphertext|](_ => 0);
    Copy(result, 0, MAGIC);
    result[4] := VERSION_1;
    Copy(result, 5, PutUint16(|keyID|));
    var header := MAGIC + [VERSION_1] + PutUint16(|keyID|);
    assert result[..V1_HEADER] == header;
    Copy(result, V1_HEADER, keyID);
    assert result[..V1_HEADER + |keyID|] == header + keyID;
    Copy(result, V1_HEADER + |keyID|, ciphertext);
    assert result[..] == header + keyID + ciphertext;
    r := Some(result[..]);
  }

  /** The source's guard: version, key ID, wrapped key, and no int overflow. */
  predicate Marshallable(version: byte, keyID: Bytes, wrapped: Bytes, plaintextLength: nat) {
    && (version == VERSION_2 || version == VERSION_3)
    && 0 < |keyID| <= MAX_UINT16
    && 0 < |wrapped| <= MAX_UINT32
    && V2_HEADER + |keyID| + |wrapped| <= MAX_INT - NONCE_SIZE - plaintextLength - TAG_SIZE
  }

  /** marshalWrappedKeyEnvelope; seal is the data AEAD under the record's data
      key, taking nonce, plaintext and associated data. */
  method MarshalWrapped(version: byte, keyID: Bytes, wrapped: Bytes, plaintext: Bytes,
                        nonceSource: Bytes, seal: (Bytes, Bytes, Bytes) -> Bytes)
    returns (r: Option<Bytes>)
    requires |nonceSource| == NONCE_SIZE
    ensures r == if Marshallable(version, keyID, wrapped, |plaintext|)
                 then Some(EncodeWrapped(version, keyID, wrapped, nonceSource,
                             seal(nonceSource, plaintext, WrappedPrefix(version, keyID, wrapped))))
                 else None
  {
    if version != VERSION_2 && version != VERSION_3 { return None; }
    if |keyID| == 0 || |keyID| > MAX_UINT16 || |wrapped| == 0 || |wrapped| > MAX_UINT32 { return None; }
    var prefixLength := V2_HEADER + |keyID| + |wrapped|;
    if prefixLength > MAX_INT - NONCE_SIZE - |plaintext| - TAG_SIZE { return None; }
    var result := new byte[prefixLength + NONCE_SIZE](_ => 0);
    Copy(result, 0, MAGIC);
    result[4] := version;
    Copy(result, 5, PutUint16(|keyID|));
    Copy(result, 7, PutUint32(|wrapped|));
    var header := MAGIC + [version] + PutUint16(|keyID|) + PutUint32(|wrapped|);
    assert result[..V2_HEADER] == header;
    Copy(result, V2_HEADER, keyID);
    assert result[..V2_HEADER + |keyID|] == header + keyID;
    Copy(result, V2_HEADER + |keyID|, wrapped);
    assert result[..prefixLength] == WrappedPrefix(version, keyID, wrapped);
    Copy(result, prefixLength, nonceSource);
    assert result[..] == WrappedPrefix(version, keyID, wrapped) + nonceSource;
    var sealed := seal(nonceSource, plaintext, result[..prefixLength]);
    r := Some(result[..] + sealed);
  }
}
