/**
 The multiaddr list codec, packages/enr/src/multiaddrs_codec.ts (31/WAKU2-ENR, `multiaddrs` key):
 every address is preceded by its length as a big-endian 16-bit integer. `valid` is the parser
 of a single address, which throws on bytes that are not one.
 */
module MultiaddrsCodec {
  import opened Wrappers
  import opened Bytes

  datatype Multiaddr = Multiaddr(bytes: seq<Byte>, hasPeerId: bool)

  datatype Failure = ContainsPeerId | OutOfBounds | InvalidAddress

  const MULTIADDR_LENGTH_SIZE: nat := 2

  /** The blobs one after the other, each behind its length. */
  function Laid(blobs: seq<seq<Byte>>): seq<Byte> {
    if blobs == [] then [] else Uint16Bytes(|blobs[0]|) + blobs[0] + Laid(blobs[1..])
  }

  // The blobs of a list of addresses
  function Blobs(multiaddrs: seq<Multiaddr>): (blobs: seq<seq<Byte>>)
    ensures |blobs| == |multiaddrs| && forall i :: 0 <= i < |blobs| ==> blobs[i] == multiaddrs[i].bytes
  {
    seq(|multiaddrs|, i requires 0 <= i < |multiaddrs| => multiaddrs[i].bytes)
  }

  lemma LaidNothing()
    ensures Laid([]) == []
  {
  }

  lemma {:induction false} LaidConcat(xs: seq<seq<Byte>>, ys: seq<seq<Byte>>)
    ensures Laid(xs + ys) == Laid(xs) + Laid(ys)
  {
    if xs == [] {
      assert xs + ys == ys;
    } else {
      assert (xs + ys)[1..] == xs[1..] + ys;
      LaidConcat(xs[1..], ys);
    }
  }

  lemma LaidSplit(blobs: seq<seq<Byte>>, i: nat)
    requires i < |blobs|
    ensures Laid(blobs[..i + 1]) == Laid(blobs[..i]) + (Uint16Bytes(|blobs[i]|) + blobs[i])
    ensures |Laid(blobs[..i + 1])| <= |Laid(blobs)|
  {
    var one := [blobs[i]];
    assert blobs[..i + 1] == blobs[..i] + one;
    assert Laid(one) == Uint16Bytes(|blobs[i]|) + blobs[i] + Laid(one[1..]) && |one[1..]| == 0;
    LaidConcat(blobs[..i], [blobs[i]]);
    assert blobs == blobs[..i + 1] + blobs[i + 1..];
    LaidConcat(blobs[..i + 1], blobs[i + 1..]);
  }

  method TotalLength(multiaddrs: seq<Multiaddr>) returns (n: nat)
    ensures n == |Laid(Blobs(multiaddrs))|
  {
    n := 0;
    var blobs := Blobs(multiaddrs);
    for i := 0 to |multiaddrs|
      invariant n == |Laid(blobs[..i])|
    {
      LaidSplit(blobs, i);
      n := n + MULTIADDR_LENGTH_SIZE + |multiaddrs[i].bytes|;
    }
    assert blobs[..|multiaddrs|] == blobs;
  }

  /** The buffer is filled exactly, unless an address carries a peer id. */
  method EncodeMultiaddrs(multiaddrs: seq<Multiaddr>) returns (r: Result<seq<Byte>, Failure>)
    ensures r == if exists i :: 0 <= i < |multiaddrs| && multiaddrs[i].hasPeerId then Err(ContainsPeerId)
                 else Ok(Laid(Blobs(multiaddrs)))
  {
    hide Laid, Uint16Bytes, Blobs;
    var totalLength := TotalLength(multiaddrs);
    LaidNothing();
    var bytes := new Byte[totalLength](_ => 0);
    var index := 0;
    ghost var blobs := Blobs(multiaddrs);
    for i := 0 to |multiaddrs|
      invariant forall k :: 0 <= k < i ==> !multiaddrs[k].hasPeerId
      invariant index == |Laid(blobs[..i])| <= bytes.Length
      invariant bytes[..index] == Laid(blobs[..i])
    {
      if multiaddrs[i].hasPeerId {
        return Err(ContainsPeerId);
      }
      LaidSplit(blobs, i);
      Set(bytes, index, Uint16Bytes(|multiaddrs[i].bytes|));
      index := index + MULTIADDR_LENGTH_SIZE;
      Set(bytes, index, multiaddrs[i].bytes);
      index := index + |multiaddrs[i].bytes|;
    }
    assert blobs[..|multiaddrs|] == blobs && bytes[..index] == bytes[..];
    r := Ok(bytes[..]);
  }

  method Set(a: array<Byte>, index: nat, s: seq<Byte>)
    requires index + |s| <= a.Length
    modifies a
    ensures a[..index + |s|] == old(a[..index]) + s
  {
    for i := 0 to |s|
      invariant a[..index + i] == old(a[..index]) + s[..i]
    {
      a[index + i] := s[i];
    }
    assert s[..|s|] == s;
  }

  // ---------------------------------------------------------------- decoding

  /** What decoding some bytes gives; the last blob is cut short where the bytes end. */
  function Decode(s: seq<Byte>, valid: seq<Byte> -> bool): Result<seq<seq<Byte>>, Failure> {
    if s == [] then Ok([])
    else if |s| < MULTIADDR_LENGTH_SIZE then Err(OutOfBounds)
    else
      var size := Uint16(s[0], s[1]);
      var stop := if MULTIADDR_LENGTH_SIZE + size <= |s| then MULTIADDR_LENGTH_SIZE + size else |s|;
      if !valid(s[MULTIADDR_LENGTH_SIZE..stop]) then Err(InvalidAddress)
      else
        var rest :- Decode(s[stop..], valid);
        Ok([s[MULTIADDR_LENGTH_SIZE..stop]] + rest)
  }

  function Prepend(blobs: seq<seq<Byte>>, r: Result<seq<seq<Byte>>, Failure>): Result<seq<seq<Byte>>, Failure> {
    match r
    case Ok(rest) => Ok(blobs + rest)
    case Err(e) => Err(e)
  }

  method DecodeMultiaddrs(bytes: seq<Byte>, valid: seq<Byte> -> bool) returns (r: Result<seq<seq<Byte>>, Failure>)
    ensures r == Decode(bytes, valid)
  {
    var multiaddrs: seq<seq<Byte>> := [];
    var index := 0;
    assert From(bytes, 0) == bytes;
    PrependConcat([], [], Decode(bytes, valid));
    while index < |bytes|
      invariant Decode(bytes, valid) == Prepend(multiaddrs, Decode(From(bytes, index), valid))
    {
      ghost var s := From(bytes, index);
      DecodeFirst(s, valid);
      hide Decode;
      if index + MULTIADDR_LENGTH_SIZE > |bytes| {
        return Err(OutOfBounds);
      }
      var size := Uint16(bytes[index], bytes[index + 1]);
      index := index + MULTIADDR_LENGTH_SIZE;
      var multiaddrBytes := bytes[index..if index + size <= |bytes| then index + size else |bytes|];
      index := index + size;
      ghost var stop := if MULTIADDR_LENGTH_SIZE + size <= |s| then MULTIADDR_LENGTH_SIZE + size else |s|;
      assert s[MULTIADDR_LENGTH_SIZE..stop] == multiaddrBytes && s[stop..] == From(bytes, index);
      if !valid(multiaddrBytes) {
        return Err(InvalidAddress);
      }
      PrependConcat(multiaddrs, [multiaddrBytes], Decode(From(bytes, index), valid));
      multiaddrs := multiaddrs + [multiaddrBytes];
    }
    assert multiaddrs + [] == multiaddrs;
    r := Ok(multiaddrs);
  }

  lemma DecodeFirst(s: seq<Byte>, valid: seq<Byte> -> bool)
    requires s != []
    ensures Decode(s, valid) ==
            if |s| < MULTIADDR_LENGTH_SIZE then Err(OutOfBounds)
            else
              var size := Uint16(s[0], s[1]);
              var stop := if MULTIADDR_LENGTH_SIZE + size <= |s| then MULTIADDR_LENGTH_SIZE + size else |s|;
              var blob := s[MULTIADDR_LENGTH_SIZE..stop];
              if !valid(blob) then Err(InvalidAddress) else Prepend([blob], Decode(s[stop..], valid))
  {
  }

  function From(s: seq<Byte>, index: nat): seq<Byte> {
    if index < |s| then s[index..] else []
  }

  lemma PrependConcat(xs: seq<seq<Byte>>, ys: seq<seq<Byte>>, r: Result<seq<seq<Byte>>, Failure>)
    ensures Prepend(xs, Prepend(ys, r)) == Prepend(xs + ys, r)
    ensures Prepend([], r) == r
  {
    if r.Ok? {
      assert [] + r.value == r.value;
      assert xs + (ys + r.value) == xs + ys + r.value;
    }
  }

  // ---------------------------------------------------------------- the round trip

  /** Where the first blob and the rest lie in what was laid out. */
  lemma LaidFirst(blob: seq<Byte>, rest: seq<Byte>, s: seq<Byte>)
    requires s == Uint16Bytes(|blob|) + blob + rest
    ensures |s| >= 2 + |blob| && Uint16(s[0], s[1]) == |blob| % 0x1_0000
    ensures s[2..2 + |blob|] == blob && s[2 + |blob|..] == rest
  {
    var lead := Uint16Bytes(|blob|);
    hide Uint16Bytes;
    assert s[0] == lead[0] && s[1] == lead[1];
  }

  /** A first blob that fits its length field is read back, and so is what follows. */
  lemma FirstBlobFits(blob: seq<Byte>, rest: seq<Byte>, s: seq<Byte>, valid: seq<Byte> -> bool)
    requires s == Uint16Bytes(|blob|) + blob + rest
    requires valid(blob) && |blob| < 0x1_0000
    ensures Decode(s, valid) == Prepend([blob], Decode(rest, valid))
  {
    hide Decode, Prepend, Uint16, Uint16Bytes;
    LaidFirst(blob, rest, s);
    DecodeFirst(s, valid);
  }

  /** A longer one is read back too short. */
  lemma FirstBlobTooLong(blob: seq<Byte>, rest: seq<Byte>, s: seq<Byte>, valid: seq<Byte> -> bool)
    requires s == Uint16Bytes(|blob|) + blob + rest && |blob| >= 0x1_0000
    ensures Decode(s, valid).Ok? ==> |Decode(s, valid).value| > 0 && Decode(s, valid).value[0] != blob
  {
    hide Decode, Uint16, Uint16Bytes;
    LaidFirst(blob, rest, s);
    DecodeFirst(s, valid);
    assert |s[2..2 + |blob| % 0x1_0000]| < |blob|;
  }

  /** For every list of addresses: decoding gives it back exactly when each fits the 16-bit length. */
  lemma {:induction false} RoundTripIff(blobs: seq<seq<Byte>>, valid: seq<Byte> -> bool)
    requires forall i :: 0 <= i < |blobs| ==> valid(blobs[i])
    ensures Decode(Laid(blobs), valid) == Ok(blobs) <==> forall i :: 0 <= i < |blobs| ==> |blobs[i]| < 0x1_0000
  {
    if blobs != [] {
      var rest := blobs[1..];
      if |blobs[0]| < 0x1_0000 {
        FirstBlobFits(blobs[0], Laid(rest), Laid(blobs), valid);
      } else {
        FirstBlobTooLong(blobs[0], Laid(rest), Laid(blobs), valid);
      }
      RoundTripIff(rest, valid);
      hide Decode, Laid;
      assert blobs == [blobs[0]] + rest;
      assert forall i :: 1 <= i < |blobs| ==> blobs[i] == rest[i - 1];
      assert forall i :: 0 <= i < |rest| ==> rest[i] == blobs[i + 1];
    }
  }

  // ---------------------------------------------------------------- what is read from any bytes

  /** Blobs one after the other; the last may claim n bytes and have fewer. */
  ghost predicate Reads(s: seq<Byte>, blobs: seq<seq<Byte>>, n: nat) {
    && blobs != [] && |blobs[|blobs| - 1]| <= n < 0x1_0000
    && (forall i :: 0 <= i < |blobs| ==> |blobs[i]| < 0x1_0000)
    && s == Laid(blobs[..|blobs| - 1]) + (Uint16Bytes(n) + blobs[|blobs| - 1])
  }

  /** Some valid blobs in full, and then what remains. */
  ghost predicate AllFit(blobs: seq<seq<Byte>>, valid: seq<Byte> -> bool) {
    forall i :: 0 <= i < |blobs| ==> valid(blobs[i]) && |blobs[i]| < 0x1_0000
  }

  lemma {:induction false} DecodeAfter(blobs: seq<seq<Byte>>, tail: seq<Byte>, s: seq<Byte>,
                                       valid: seq<Byte> -> bool)
    requires AllFit(blobs, valid)
    requires s == Laid(blobs) + tail
    ensures Decode(s, valid) == Prepend(blobs, Decode(tail, valid))
    decreases |blobs|
  {
    if blobs == [] {
      assert s == tail;
      PrependConcat([], [], Decode(tail, valid));
    } else {
      var rest := blobs[1..];
      assert s == Uint16Bytes(|blobs[0]|) + blobs[0] + (Laid(rest) + tail);
      FirstBlobFits(blobs[0], Laid(rest) + tail, s, valid);
      DecodeAfter(rest, tail, Laid(rest) + tail, valid);
      hide Decode, Laid, Prepend;
      PrependConcat([blobs[0]], rest, Decode(tail, valid));
      assert blobs == [blobs[0]] + rest;
    }
  }

  lemma DecodesNothing(valid: seq<Byte> -> bool)
    ensures Decode([], valid) == Ok([])
  {
  }

  /** The last blob runs as far as the bytes go. */
  lemma LastBlob(n: nat, blob: seq<Byte>, valid: seq<Byte> -> bool)
    requires |blob| <= n < 0x1_0000
    ensures Decode(Uint16Bytes(n) + blob, valid) == if valid(blob) then Ok([blob]) else Err(InvalidAddress)
  {
    hide Decode, Uint16, Uint16Bytes;
    var lead := Uint16Bytes(n);
    var s := lead + blob;
    DecodesNothing(valid);
    assert s[0] == lead[0] && s[1] == lead[1];
    DecodeFirst(s, valid);
    assert s[2..|s|] == blob && s[|s|..] == [];
    assert [blob] + [] == [blob];
  }

  /** Exactly which bytes are decoded, and as what. */
  lemma {:induction false} DecodesIff(s: seq<Byte>, blobs: seq<seq<Byte>>, valid: seq<Byte> -> bool)
    ensures Decode(s, valid) == Ok(blobs)
       <==> (forall i :: 0 <= i < |blobs| ==> valid(blobs[i]))
            && if s == [] then blobs == [] else exists n: nat :: Reads(s, blobs, n)
    decreases |s|
  {
    if s != [] && Decode(s, valid) == Ok(blobs) {
      DecodedReads(s, blobs, valid);
    }
    if n: nat :| (forall i :: 0 <= i < |blobs| ==> valid(blobs[i])) && Reads(s, blobs, n) {
      var k := |blobs| - 1;
      DecodeAfter(blobs[..k], Uint16Bytes(n) + blobs[k], s, valid);
      LastBlob(n, blobs[k], valid);
      hide Decode, Laid;
      assert blobs == blobs[..k] + [blobs[k]];
    }
  }

  /** Where the first blob of some bytes ends, and what it is. */
  lemma FirstOf(s: seq<Byte>, blobs: seq<seq<Byte>>, valid: seq<Byte> -> bool) returns (size: nat, rest: seq<Byte>)
    requires s != [] && Decode(s, valid) == Ok(blobs)
    ensures size < 0x1_0000 && blobs != [] && valid(blobs[0]) && |blobs[0]| <= size
    ensures s == Uint16Bytes(size) + blobs[0] + rest
    ensures Decode(rest, valid) == Ok(blobs[1..])
    ensures rest != [] ==> |blobs[0]| == size
  {
    size := Uint16(s[0], s[1]);
    var stop := if MULTIADDR_LENGTH_SIZE + size <= |s| then MULTIADDR_LENGTH_SIZE + size else |s|;
    rest := s[stop..];
    DecodeFirst(s, valid);
    Uint16Written(s[0], s[1]);
    hide Decode, Uint16, Uint16Bytes;
    assert blobs[1..] == Decode(rest, valid).value;
    assert s[..2] == [s[0], s[1]];
    assert s == s[..2] + s[2..stop] + s[stop..];
  }

  lemma {:induction false} DecodedReads(s: seq<Byte>, blobs: seq<seq<Byte>>, valid: seq<Byte> -> bool)
    requires s != [] && Decode(s, valid) == Ok(blobs)
    ensures forall i :: 0 <= i < |blobs| ==> valid(blobs[i])
    ensures exists n: nat :: Reads(s, blobs, n)
    decreases |s|
  {
    hide Decode, Laid, Uint16, Uint16Bytes;
    var size, rest := FirstOf(s, blobs, valid);
    var first, others := blobs[0], blobs[1..];
    assert blobs == [first] + others;
    if rest != [] {
      DecodedReads(rest, others, valid);
      var n: nat :| Reads(rest, others, n);
      var k := |others| - 1;
      LaidMore(first, others[..k]);
      assert blobs[..k + 1] == [first] + others[..k];
      Regroup(Uint16Bytes(|first|) + first, Laid(others[..k]), Uint16Bytes(n) + others[k]);
      assert Reads(s, blobs, n);
    } else {
      DecodesNothing(valid);
      LaidNothing();
      assert blobs[..0] == [] && s == [] + (Uint16Bytes(size) + first);
      assert Reads(s, blobs, size);
    }
  }

  lemma Regroup(a: seq<Byte>, b: seq<Byte>, c: seq<Byte>)
    ensures a + (b + c) == a + b + c
  {
  }

  lemma LaidMore(blob: seq<Byte>, rest: seq<seq<Byte>>)
    ensures Laid([blob] + rest) == Uint16Bytes(|blob|) + blob + Laid(rest)
  {
    assert ([blob] + rest)[1..] == rest;
    hide Uint16Bytes;
  }

  /** A lone byte is out of bounds. */
  lemma LoneByte(last: Byte, valid: seq<Byte> -> bool)
    ensures Decode([last], valid) == Err(OutOfBounds)
  {
  }

  lemma FirstIsBad(bad: seq<Byte>, rest: seq<Byte>, s: seq<Byte>, valid: seq<Byte> -> bool)
    requires !valid(bad) && |bad| < 0x1_0000 && s == Uint16Bytes(|bad|) + bad + rest
    ensures Decode(s, valid) == Err(InvalidAddress)
  {
    hide Decode, Uint16, Uint16Bytes;
    LaidFirst(bad, rest, s);
    DecodeFirst(s, valid);
  }

  /** A lone byte behind valid blobs is out of bounds, and the first blob that is not valid stops decoding. */
  lemma DecodeStops(blobs: seq<seq<Byte>>, last: Byte, bad: seq<Byte>, rest: seq<Byte>, valid: seq<Byte> -> bool)
    requires AllFit(blobs, valid) && !valid(bad) && |bad| < 0x1_0000
    ensures Decode(Laid(blobs) + [last], valid) == Err(OutOfBounds)
    ensures Decode(Laid(blobs) + (Uint16Bytes(|bad|) + bad + rest), valid) == Err(InvalidAddress)
  {
    hide Decode, Laid, Uint16, Uint16Bytes;
    var s := Uint16Bytes(|bad|) + bad + rest;
    LoneByte(last, valid);
    FirstIsBad(bad, rest, s, valid);
    DecodeAfter(blobs, [last], Laid(blobs) + [last], valid);
    DecodeAfter(blobs, s, Laid(blobs) + s, valid);
  }
}
