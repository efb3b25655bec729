/**
 The payload envelope, packages/message-encryption/src/encryption.ts (26/WAKU2-PAYLOAD): flags,
 a little-endian size field, the payload, padding to a multiple of 256, and an optional
 signature. Hashing, signing and key recovery are foreign code and are passed in.
 */
module PayloadEnvelope {
  import opened Wrappers
  import opened Bytes

  type Key = seq<Byte>

  datatype Crypto = Crypto(
    keccak256: seq<Byte> -> seq<Byte>,
    sign: (seq<Byte>, Key) -> seq<Byte>,
    publicKey: Key -> seq<Byte>,
    recover: (seq<Byte>, seq<Byte>) -> Option<seq<Byte>>)   // None: recoverPublicKey finds no key

  const FLAGS_LENGTH: nat := 1
  const PADDING_TARGET: nat := 256
  const SIGNATURE_LENGTH: nat := 65
  const MAX_PAYLOAD: nat := 0x100_0000
  const MAX_LENGTH: nat := 0x20_0000_0000_0000

  // ---------------------------------------------------------------- the flags byte

  /** `flags & FlagMask`: the two low bits hold the size of the size field. */
  function SizeBits(flags: Byte): nat {
    flags % 4
  }

  /** `(flags & IsSignedMask) == IsSignedMask`: bit 2. */
  predicate SignedBit(flags: Byte) {
    flags / 4 % 2 == 1
  }

  /** `flags |= IsSignedMask`. */
  function WithSignedBit(flags: Byte): Byte {
    if SignedBit(flags) then flags else (assert flags <= 251 by { BelowBit(flags); } flags + 4)
  }

  lemma BelowBit(flags: Byte)
    requires !SignedBit(flags)
    ensures flags <= 251
  {
    assert flags / 4 != 63;
  }

  // ---------------------------------------------------------------- the size field

  /** The digits of a length in base 256: the bytes its size field needs. */
  function SizeFieldBytes(n: nat): nat {
    if n < 256 then 1 else 1 + SizeFieldBytes(n / 256)
  }

  /** The source divides a number, not an integer, by 256 until it is small. */
  method ComputeSizeOfPayloadSizeField(payload: seq<Byte>) returns (s: nat)
    ensures s == SizeFieldBytes(|payload|)
  {
    s := 1;
    var i := |payload| as real;
    while i >= 256.0
      invariant i >= 0.0 && s - 1 + SizeFieldBytes(i.Floor) == SizeFieldBytes(|payload|)
      decreases i.Floor
    {
      FloorOfQuotient(i);
      s := s + 1;
      i := i / 256.0;
    }
  }

  lemma FloorOfQuotient(i: real)
    requires i >= 0.0
    ensures (i / 256.0).Floor == i.Floor / 256
  {
    var q := i.Floor / 256;
    assert 256 * q <= i.Floor < 256 * q + 256;
    assert (256 * q) as real <= i < (256 * q + 256) as real;
    assert q as real <= i / 256.0 < (q + 1) as real;
  }

  /** `setUint32(0, n, true)`: the low 32 bits, little-endian. */
  function LittleEndian32(n: nat): (s: seq<Byte>)
    ensures |s| == 4
  {
    [n % 256, n / 256 % 256, n / 0x1_0000 % 256, n / 0x100_0000 % 256]
  }

  /** The number spelled by little-endian bytes; missing bytes count as zero. */
  function FromLittleEndian(s: seq<Byte>): nat {
    if s == [] then 0 else s[0] + 256 * FromLittleEndian(s[1..])
  }

  function Take(s: seq<Byte>, n: nat): (t: seq<Byte>)
    ensures |t| <= n && t <= s
  {
    if n <= |s| then s[..n] else s
  }

  function SizeField(n: nat): (s: seq<Byte>)
    ensures |s| <= 4
  {
    Take(LittleEndian32(n), SizeFieldBytes(n))
  }

  // ---------------------------------------------------------------- preCipher

  /** The bytes a signature covers. */
  function Unsigned(payload: seq<Byte>, pad: seq<Byte>, willSign: bool): (s: seq<Byte>)
    requires |payload| < MAX_LENGTH
    ensures |s| == 1 + |SizeField(|payload|)| + |payload| + |pad|
  {
    SmallSizeField(|payload|);
    var flags: Byte := SizeFieldBytes(|payload|);
    [if willSign then WithSignedBit(flags) else flags] + SizeField(|payload|) + payload + pad
  }

  lemma SmallSizeField(n: nat)
    requires n < MAX_LENGTH
    ensures 1 <= SizeFieldBytes(n) <= 7
    ensures SizeFieldBytes(n) == 1 <==> n < 0x100
    ensures SizeFieldBytes(n) <= 2 <==> n < 0x1_0000
    ensures SizeFieldBytes(n) <= 3 <==> n < MAX_PAYLOAD
    ensures SizeFieldBytes(n) <= 4 <==> n < 0x1_0000_0000
  {
    var n1 := n / 256;
    var n2 := n1 / 256;
    var n3 := n2 / 256;
    var n4 := n3 / 256;
    var n5 := n4 / 256;
    var n6 := n5 / 256;
    assert SizeFieldBytes(n6) == 1;
    assert n5 >= 256 ==> SizeFieldBytes(n5) == 2;
    assert n4 >= 256 ==> SizeFieldBytes(n4) == 1 + SizeFieldBytes(n5);
    assert n3 >= 256 ==> SizeFieldBytes(n3) == 1 + SizeFieldBytes(n4);
    assert n2 >= 256 ==> SizeFieldBytes(n2) == 1 + SizeFieldBytes(n3);
    assert n1 >= 256 ==> SizeFieldBytes(n1) == 1 + SizeFieldBytes(n2);
  }

  function PaddingSize(n: nat, willSign: bool): nat {
    var rawSize := FLAGS_LENGTH + SizeFieldBytes(n) + n + if willSign then SIGNATURE_LENGTH else 0;
    PADDING_TARGET - rawSize % PADDING_TARGET
  }

  /** `validateDataIntegrity`: the right size, and not all zeros unless very short. */
  predicate GoodPad(pad: seq<Byte>, size: nat) {
    |pad| == size && (size <= 3 || exists k :: 0 <= k < |pad| && pad[k] != 0)
  }

  /** What preCipher returns for a given draw of random padding; None: it throws. */
  function PreCipher(c: Crypto, payload: seq<Byte>, key: Option<Key>, pad: seq<Byte>): Option<seq<Byte>>
    requires |payload| < MAX_LENGTH
  {
    if !GoodPad(pad, PaddingSize(|payload|, key.Some?)) then None
    else
      var body := Unsigned(payload, pad, key.Some?);
      match key
      case None => Some(body)
      case Some(k) => Some(body + c.sign(c.keccak256(body), k))
  }

  method RunPreCipher(c: Crypto, messagePayload: seq<Byte>, sigPrivKey: Option<Key>, randomBytes: nat -> seq<Byte>)
    returns (r: Option<seq<Byte>>)
    requires |messagePayload| < MAX_LENGTH
    ensures r == PreCipher(c, messagePayload, sigPrivKey, randomBytes(PaddingSize(|messagePayload|, sigPrivKey.Some?)))
    ensures Random(randomBytes) ==> r.Some?
    ensures Random(randomBytes) && Recovers(c) && |messagePayload| < MAX_PAYLOAD ==>
              ComesBack(c, messagePayload, sigPrivKey, r)
  {
    ReturnsAndComesBack(c, messagePayload, sigPrivKey, randomBytes);
    hide Random, Recovers, ComesBack;
    SmallSizeField(|messagePayload|);
    hide SizeFieldBytes, LittleEndian32, Take, GoodPad, SignedBit;
    var envelope: seq<Byte> := [0];
    // the flags are 0 here, so or-ing in the size sets the byte
    var fieldSize := ComputeSizeOfPayloadSizeField(messagePayload);
    envelope := envelope + Take(LittleEndian32(|messagePayload|), fieldSize);
    envelope := envelope[0 := fieldSize];
    envelope := envelope + messagePayload;
    var size := ComputeSizeOfPayloadSizeField(messagePayload);
    var rawSize := FLAGS_LENGTH + size + |messagePayload|;
    if sigPrivKey.Some? {
      rawSize := rawSize + SIGNATURE_LENGTH;
    }
    var paddingSize := PADDING_TARGET - rawSize % PADDING_TARGET;
    var pad := randomBytes(paddingSize);
    if !GoodPad(pad, paddingSize) {
      return None;
    }
    envelope := envelope + pad;
    EnvelopeBuilt(SizeField(|messagePayload|), messagePayload, pad, fieldSize, WithSignedBit(fieldSize));
    if sigPrivKey.Some? {
      envelope := envelope[0 := WithSignedBit(envelope[0])];
      assert envelope == Unsigned(messagePayload, pad, true);
      hide Unsigned;
      var hash := c.keccak256(envelope);
      envelope := envelope + c.sign(hash, sigPrivKey.value);
    } else {
      assert envelope == Unsigned(messagePayload, pad, false);
    }
    r := Some(envelope);
  }

  /** What building the envelope in place gives, with the flags set before or after the rest. */
  lemma EnvelopeBuilt(field: seq<Byte>, payload: seq<Byte>, pad: seq<Byte>, size: Byte, flags: Byte)
    ensures ([0] + field)[0 := size] + payload + pad == [size] + field + payload + pad
    ensures (([0] + field)[0 := size] + payload + pad)[0 := flags] == [flags] + field + payload + pad
  {
    assert ([0] + field)[0 := size] == [size] + field;
  }

  // ---------------------------------------------------------------- postCipher

  datatype Signature = Signature(signature: seq<Byte>, publicKey: Option<seq<Byte>>)

  datatype Post = Throws | Undefined | Decoded(payload: seq<Byte>, sig: Option<Signature>)

  /** `slice` with a start and an end that count from the back when negative. */
  function JsSlice(s: seq<Byte>, start: int, end: int): seq<Byte> {
    var from := Clamp(start, |s|);
    var to := Clamp(end, |s|);
    if from <= to then s[from..to] else []
  }

  function Clamp(i: int, n: nat): (k: nat)
    ensures k <= n
  {
    if i < 0 then (if n + i < 0 then 0 else n + i) else if i < n then i else n
  }

  function GetSignature(message: seq<Byte>): seq<Byte> {
    JsSlice(message, |message| - SIGNATURE_LENGTH, |message|)
  }

  function GetHash(c: Crypto, message: seq<Byte>): seq<Byte> {
    c.keccak256(JsSlice(message, 0, |message| - SIGNATURE_LENGTH))
  }

  function GetPayload(message: seq<Byte>): seq<Byte>
    requires message != []
  {
    var field := SizeBits(message[0]);
    var size := FromLittleEndian(JsSlice(message, 1, 1 + field));
    JsSlice(message, 1 + field, 1 + field + size)
  }

  /** An empty message throws on its flags, a signature without recovery byte on that byte. */
  function PostCipher(c: Crypto, message: seq<Byte>): Post {
    if message == [] then Throws
    else if SizeBits(message[0]) == 0 then Undefined
    else if !SignedBit(message[0]) then Decoded(GetPayload(message), None)
    else
      var signature := GetSignature(message);
      if |signature| < SIGNATURE_LENGTH then Throws
      else Decoded(GetPayload(message), Some(Signature(signature, c.recover(GetHash(c, message), signature))))
  }

  // ---------------------------------------------------------------- the round trip

  /** Signatures are 65 bytes long, and recovery finds the key that signed. */
  ghost predicate Recovers(c: Crypto) {
    && (forall h, k :: |c.sign(h, k)| == SIGNATURE_LENGTH)
    && (forall h, k :: c.recover(h, c.sign(h, k)) == Some(c.publicKey(k)))
  }

  lemma SizeFieldReads(n: nat)
    requires n < MAX_PAYLOAD
    ensures |SizeField(n)| == SizeFieldBytes(n) <= 3 && FromLittleEndian(SizeField(n)) == n
  {
    SmallSizeField(n);
    var s := SizeField(n);
    assert FromLittleEndian([]) == 0;
    if n < 0x100 {
      assert s == [n] && s[1..] == [];
    } else if n < 0x1_0000 {
      assert s == [n % 256, n / 256] && s[1..][1..] == [];
      assert FromLittleEndian(s[1..]) == n / 256;
    } else {
      assert n / 0x1_0000 == n / 256 / 256;
      assert s == [n % 256, n / 256 % 256, n / 0x1_0000] && s[1..][1..][1..] == [];
      assert FromLittleEndian(s[1..][1..]) == n / 0x1_0000;
    }
  }

  lemma {:induction false} LittleEndianBounded(s: seq<Byte>)
    ensures |s| <= 3 ==> FromLittleEndian(s) < MAX_PAYLOAD
    ensures |s| <= 2 ==> FromLittleEndian(s) < 0x1_0000
    ensures |s| <= 1 ==> FromLittleEndian(s) < 0x100
  {
    if s != [] {
      LittleEndianBounded(s[1..]);
    }
  }

  /** What the size field and the flags of a small payload hold. */
  lemma UnsignedParts(payload: seq<Byte>, pad: seq<Byte>, willSign: bool, flags: Byte)
    requires |payload| < MAX_PAYLOAD && flags == if willSign then |SizeField(|payload|)| + 4 else |SizeField(|payload|)|
    ensures Unsigned(payload, pad, willSign) == [flags] + SizeField(|payload|) + payload + pad
    ensures SizeBits(flags) == |SizeField(|payload|)| && SignedBit(flags) == willSign
  {
    SmallSizeField(|payload|);
    SizeFieldReads(|payload|);
  }

  /** Where the parts of an envelope lie, whatever is appended. */
  lemma Layout(flags: Byte, field: seq<Byte>, payload: seq<Byte>, pad: seq<Byte>, tail: seq<Byte>, m: seq<Byte>)
    requires m == [flags] + field + payload + pad + tail
    ensures |m| >= 1 + |field| + |payload| && m[0] == flags
    ensures m[1..1 + |field|] == field && m[1 + |field|..1 + |field| + |payload|] == payload
  {
  }

  lemma ReadBack(m: seq<Byte>, field: seq<Byte>, payload: seq<Byte>)
    requires FromLittleEndian(field) == |payload| && |m| >= 1 + |field| + |payload| && SizeBits(m[0]) == |field|
    requires m[1..1 + |field|] == field && m[1 + |field|..1 + |field| + |payload|] == payload
    ensures GetPayload(m) == payload
  {
    hide FromLittleEndian, SizeBits;
  }

  /** Below 2^24 bytes the payload comes back, whatever the padding and whatever is appended. */
  lemma PayloadComesBack(payload: seq<Byte>, pad: seq<Byte>, willSign: bool, tail: seq<Byte>, m: seq<Byte>)
    requires |payload| < MAX_PAYLOAD && m == Unsigned(payload, pad, willSign) + tail
    ensures m != [] && SizeBits(m[0]) == SizeFieldBytes(|payload|)
    ensures SignedBit(m[0]) == willSign
    ensures GetPayload(m) == payload
  {
    hide *;
    var field := SizeField(|payload|);
    SizeFieldReads(|payload|);
    var flags: Byte := if willSign then |field| + 4 else |field|;
    UnsignedParts(payload, pad, willSign, flags);
    Layout(flags, field, payload, pad, tail, m);
    ReadBack(m, field, payload);
  }

  /** From 2^24 bytes on, whatever postCipher reads as the payload is shorter than it was. */
  lemma LargePayloadIsLost(c: Crypto, payload: seq<Byte>, m: seq<Byte>)
    requires |payload| >= MAX_PAYLOAD && m != []
    ensures PostCipher(c, m).Decoded? ==> PostCipher(c, m).payload != payload
  {
    var field := SizeBits(m[0]);
    LittleEndianBounded(JsSlice(m, 1, 1 + field));
  }

  /**
   Exactly when postCipher undoes preCipher: the payload is shorter than 2^24 bytes. Beyond,
   the size of the size field no longer fits the two flag bits that hold it.
   */
  lemma PayloadRoundTripIff(c: Crypto, payload: seq<Byte>, key: Option<Key>, pad: seq<Byte>)
    requires Recovers(c) && |payload| < MAX_LENGTH && PreCipher(c, payload, key, pad).Some?
    ensures var post := PostCipher(c, PreCipher(c, payload, key, pad).value);
            (post.Decoded? && post.payload == payload) <==> |payload| < MAX_PAYLOAD
  {
    var m := PreCipher(c, payload, key, pad).value;
    if |payload| < MAX_PAYLOAD {
      SmallSizeField(|payload|);
      var body := Unsigned(payload, pad, key.Some?);
      assert body + [] == body;
      PayloadComesBack(payload, pad, key.Some?, if key.None? then [] else c.sign(c.keccak256(body), key.value), m);
    } else {
      LargePayloadIsLost(c, payload, m);
    }
  }

  /** A signed envelope: the hash recomputed is the hash signed, and the signer is recovered. */
  lemma SignatureRoundTrip(c: Crypto, payload: seq<Byte>, key: Key, pad: seq<Byte>)
    requires Recovers(c) && |payload| < MAX_PAYLOAD && PreCipher(c, payload, Some(key), pad).Some?
    ensures var m := PreCipher(c, payload, Some(key), pad).value;
            var signed := c.keccak256(Unsigned(payload, pad, true));
            && GetHash(c, m) == signed
            && PostCipher(c, m) == Decoded(payload, Some(Signature(c.sign(signed, key), Some(c.publicKey(key)))))
  {
    var body := Unsigned(payload, pad, true);
    var signature := c.sign(c.keccak256(body), key);
    var m := body + signature;
    SmallSizeField(|payload|);
    PayloadComesBack(payload, pad, true, signature, m);
    assert JsSlice(m, 0, |m| - SIGNATURE_LENGTH) == body && GetSignature(m) == signature;
  }

  /** An unsigned envelope decodes to its payload and no signature. */
  lemma UnsignedRoundTrip(c: Crypto, payload: seq<Byte>, pad: seq<Byte>)
    requires |payload| < MAX_PAYLOAD && PreCipher(c, payload, None, pad).Some?
    ensures PostCipher(c, PreCipher(c, payload, None, pad).value) == Decoded(payload, None)
  {
    var body := Unsigned(payload, pad, false);
    SmallSizeField(|payload|);
    assert body + [] == body;
    PayloadComesBack(payload, pad, false, [], body);
  }

  /** The envelope fills whole blocks of 256 bytes, exactly as long as its size field has four bytes. */
  lemma EnvelopeFillsBlocksIff(c: Crypto, payload: seq<Byte>, key: Option<Key>, pad: seq<Byte>)
    requires Recovers(c) && |payload| < MAX_LENGTH && PreCipher(c, payload, key, pad).Some?
    ensures |PreCipher(c, payload, key, pad).value| % PADDING_TARGET == 0 <==> |payload| < 0x1_0000_0000
  {
    SmallSizeField(|payload|);
    var m, n := PreCipher(c, payload, key, pad).value, |payload|;
    var f, body := SizeFieldBytes(n), Unsigned(payload, pad, key.Some?);
    var raw := FLAGS_LENGTH + f + n + if key.Some? then SIGNATURE_LENGTH else 0;
    assert |pad| == PADDING_TARGET - raw % PADDING_TARGET;
    assert |m| == |body| + if key.Some? then SIGNATURE_LENGTH else 0;
    assert |SizeField(n)| == if f <= 4 then f else 4;
    hide SizeFieldBytes, SizeField, Unsigned, PreCipher;
    BlocksMinus(raw / PADDING_TARGET + 1, if f <= 4 then 0 else f - 4);
  }

  lemma BlocksMinus(blocks: nat, missing: nat)
    requires missing < PADDING_TARGET <= PADDING_TARGET * blocks
    ensures (PADDING_TARGET * blocks - missing) % PADDING_TARGET == 0 <==> missing == 0
  {
    if missing > 0 {
      assert PADDING_TARGET * blocks - missing == PADDING_TARGET * (blocks - 1) + (PADDING_TARGET - missing);
    }
  }

  // ---------------------------------------------------------------- when preCipher returns

  function Power256(k: nat): nat {
    if k == 0 then 1 else 256 * Power256(k - 1)
  }

  /** The size field has the fewest bytes that can hold the length. */
  lemma {:induction false} SizeFieldLeast(n: nat)
    ensures n < Power256(SizeFieldBytes(n))
    ensures SizeFieldBytes(n) > 1 ==> n >= Power256(SizeFieldBytes(n) - 1)
  {
    if n >= 256 {
      SizeFieldLeast(n / 256);
    }
  }

  /**
   Exactly when preCipher returns: the random bytes fill up a block after flags, size field,
   payload and signature, and are not all zero unless there are three of them at most.
   */
  lemma PreCipherReturnsIff(c: Crypto, payload: seq<Byte>, key: Option<Key>, pad: seq<Byte>)
    requires |payload| < MAX_LENGTH
    ensures PreCipher(c, payload, key, pad).Some?
       <==> && |pad| == 256 - (1 + SizeFieldBytes(|payload|) + |payload| + if key.Some? then 65 else 0) % 256
            && (|pad| <= 3 || exists k :: 0 <= k < |pad| && pad[k] != 0)
  {
    hide Unsigned, SizeFieldBytes;
  }

  /** The generator gives as many bytes as asked for, and not zeros only. */
  ghost predicate Random(randomBytes: nat -> seq<Byte>) {
    forall k: nat | k > 0 ::
      |randomBytes(k)| == k && exists i :: 0 <= i < k && randomBytes(k)[i] != 0
  }

  /** What postCipher makes of the envelope: the payload, and the signer if there is one. */
  ghost predicate ComesBack(c: Crypto, payload: seq<Byte>, key: Option<Key>, r: Option<seq<Byte>>) {
    && r.Some? && PostCipher(c, r.value).Decoded? && PostCipher(c, r.value).payload == payload
    && match key
       case None => PostCipher(c, r.value).sig == None
       case Some(k) =>
         && PostCipher(c, r.value).sig.Some?
         && PostCipher(c, r.value).sig.value.publicKey == Some(c.publicKey(k))
  }

  lemma ReturnsAndComesBack(c: Crypto, payload: seq<Byte>, key: Option<Key>, randomBytes: nat -> seq<Byte>)
    requires |payload| < MAX_LENGTH
    ensures var r := PreCipher(c, payload, key, randomBytes(PaddingSize(|payload|, key.Some?)));
            && (Random(randomBytes) ==> r.Some?)
            && (Random(randomBytes) && Recovers(c) && |payload| < MAX_PAYLOAD ==> ComesBack(c, payload, key, r))
  {
    var size := PaddingSize(|payload|, key.Some?);
    var pad := randomBytes(size);
    PreCipherReturnsIff(c, payload, key, pad);
    if Random(randomBytes) {
      assert |pad| == size;
      if Recovers(c) && |payload| < MAX_PAYLOAD {
        hide PreCipher, PostCipher, Recovers;
        match key
        case None => UnsignedRoundTrip(c, payload, pad);
        case Some(k) => SignatureRoundTrip(c, payload, k, pad);
      }
    }
  }

  /**
   Where everything lies in an envelope below 2^24 bytes, byte by byte: the width of the size
   field in the two low bits of the flags, the signed bit above them, the length little-endian,
   payload, padding, and a signature over all that comes before it.
   */
  lemma EnvelopeLayout(c: Crypto, payload: seq<Byte>, key: Option<Key>, pad: seq<Byte>)
    requires Recovers(c) && |payload| < MAX_PAYLOAD && PreCipher(c, payload, key, pad).Some?
    ensures var m, n, f := PreCipher(c, payload, key, pad).value, |payload|, SizeFieldBytes(|payload|);
            && 1 <= f <= 3 && |m| == 1 + f + n + |pad| + (if key.Some? then 65 else 0)
            && m[0] == f + (if key.Some? then 4 else 0)
            && n == (m[1] as int) + (if f > 1 then 256 * (m[2] as int) else 0)
                  + (if f > 2 then 65536 * (m[3] as int) else 0)
            && m[1 + f..1 + f + n] == payload && m[1 + f + n..1 + f + n + |pad|] == pad
            && (key.Some? ==> m[|m| - 65..] == c.sign(c.keccak256(m[..|m| - 65]), key.value))
  {
    var n, field := |payload|, SizeField(|payload|);
    SizeFieldReads(n);
    SizeFieldDigits(n);
    var signed := key.Some?;
    var flags: Byte := if signed then |field| + 4 else |field|;
    UnsignedParts(payload, pad, signed, flags);
    var body := Unsigned(payload, pad, signed);
    var tail := if key.None? then [] else c.sign(c.keccak256(body), key.value);
    assert body + [] == body;
    assert PreCipher(c, payload, key, pad).value == body + tail;
    hide SizeField, Unsigned, SizeFieldBytes, FromLittleEndian, PreCipher, Recovers;
    Parts(flags, field, payload, pad, tail, body + tail);
  }

  lemma Parts(flags: Byte, field: seq<Byte>, payload: seq<Byte>, pad: seq<Byte>, tail: seq<Byte>, m: seq<Byte>)
    requires m == [flags] + field + payload + pad + tail
    ensures |m| == 1 + |field| + |payload| + |pad| + |tail| && m[0] == flags
    ensures forall i :: 0 <= i < |field| ==> m[1 + i] == field[i]
    ensures m[1 + |field|..1 + |field| + |payload|] == payload
    ensures m[1 + |field| + |payload|..1 + |field| + |payload| + |pad|] == pad
    ensures m[..|m| - |tail|] == [flags] + field + payload + pad && m[|m| - |tail|..] == tail
  {
  }

  lemma SizeFieldDigits(n: nat)
    requires n < MAX_PAYLOAD
    ensures var s := SizeField(n);
            && 1 <= |s| <= 3
            && n == (s[0] as int) + (if |s| > 1 then 256 * (s[1] as int) else 0)
                  + (if |s| > 2 then 65536 * (s[2] as int) else 0)
  {
    SmallSizeField(n);
  }

  /** From 2^24 up to 2^32 bytes the flags say that there is no size field: postCipher returns nothing. */
  lemma LargePayloadIsUndefined(c: Crypto, payload: seq<Byte>, key: Option<Key>, pad: seq<Byte>)
    requires MAX_PAYLOAD <= |payload| < 0x1_0000_0000 && PreCipher(c, payload, key, pad).Some?
    ensures PostCipher(c, PreCipher(c, payload, key, pad).value) == Undefined
  {
    SmallSizeField(|payload|);
    assert SizeFieldBytes(|payload|) == 4;
    hide SizeFieldBytes, SizeField;
  }
}
