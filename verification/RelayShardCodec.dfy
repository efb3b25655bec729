/**
 The relay shard codec, packages/utils/src/common/relay_shard_codec.ts: an index list below 64
 shards and a bit vector otherwise (51/WAKU2-RELAY-SHARDING, `rs` and `rsv`). Both directions
 are proved against a reading of the bytes, and the round trip is characterised exactly.
 */
module RelayShardCodec {
  import opened Wrappers
  import opened Bytes

  datatype ShardInfo = ShardInfo(clusterId: nat, shards: seq<nat>)

  datatype Failure = InsufficientData | UnexpectedEnd | OutOfRange

  const VECTOR_BYTES: nat := 130
  const VECTOR_SHARDS: nat := 64
  const MAX_SHARD: nat := 1024

  // ---------------------------------------------------------------- bits

  /** The binary digit k of a number: the test `b & (1 << k)`. */
  predicate Bit(b: nat, k: nat) {
    if k == 0 then b % 2 == 1 else Bit(b / 2, k - 1)
  }

  /** The number with digit k set: `b | (1 << k)`. */
  function WithBit(b: nat, k: nat): nat {
    if k == 0 then (if b % 2 == 1 then b else b + 1)
    else 2 * WithBit(b / 2, k - 1) + b % 2
  }

  // What the bits of a byte are worth, from the highest down
  const WEIGHTS: seq<nat> := [128, 64, 32, 16, 8, 4, 2, 1]

  predicate WeightIn(b: Byte, k: nat)
    requires k < 8
  {
    b / WEIGHTS[k] % 2 == 1
  }

  lemma {:induction false} BitIsWeight(b: Byte, k: nat)
    requires k < 8
    ensures Bit(b, 7 - k) <==> WeightIn(b, k)
    decreases 8 - k
  {
    if k < 7 {
      BitIsWeight(b / 2, k + 1);
      assert b / 2 / WEIGHTS[k + 1] == b / WEIGHTS[k];
    }
  }

  lemma {:induction false} WithBitSets(b: nat, k: nat, j: nat)
    ensures Bit(WithBit(b, k), j) <==> Bit(b, j) || j == k
  {
    if k > 0 && j > 0 {
      WithBitSets(b / 2, k - 1, j - 1);
    }
  }

  function Power2(k: nat): nat {
    if k == 0 then 1 else 2 * Power2(k - 1)
  }

  lemma {:induction false} WithBitBounded(b: nat, k: nat, m: nat)
    requires k < m && b < Power2(m)
    ensures WithBit(b, k) < Power2(m)
  {
    if k > 0 {
      WithBitBounded(b / 2, k - 1, m - 1);
    }
  }

  /** Setting a bit of a byte leaves a byte. */
  lemma ByteWithBit(b: Byte, k: nat)
    requires k < 8
    ensures 0 <= WithBit(b, k) < 256
  {
    assert Power2(8) == 256;
    WithBitBounded(b, k, 8);
  }

  lemma {:induction false} ZeroHasNoBits(k: nat)
    ensures !Bit(0, k)
  {
    if k > 0 {
      ZeroHasNoBits(k - 1);
    }
  }

  /** Shard i of a bit vector: the bits of a byte run from the highest down. */
  predicate VectorHas(b: seq<Byte>, i: nat)
    requires |b| == VECTOR_BYTES && i < MAX_SHARD
  {
    Bit(b[i / 8 + 2], 7 - i % 8)
  }

  // ---------------------------------------------------------------- encoding

  /** The bytes an encoder is to produce: cluster, then index list or bit vector. */
  ghost predicate Encodes(b: seq<Byte>, info: ShardInfo) {
    if |info.shards| >= VECTOR_SHARDS then
      && |b| == VECTOR_BYTES
      && b[..2] == Uint16Bytes(info.clusterId)
      && forall i: nat | i < MAX_SHARD :: VectorHas(b, i) <==> i in info.shards
    else
      && |b| == 3 + 2 * |info.shards|
      && b[..2] == Uint16Bytes(info.clusterId)
      && b[2] == |info.shards|
      && forall k :: 0 <= k < |info.shards| ==> b[3 + 2 * k..5 + 2 * k] == Uint16Bytes(info.shards[k])
  }

  method SetUint16(view: array<Byte>, offset: nat, n: nat)
    requires offset + 2 <= view.Length
    modifies view
    ensures view[..] == old(view[..])[offset := Uint16Bytes(n)[0]][offset + 1 := Uint16Bytes(n)[1]]
  {
    var bytes := Uint16Bytes(n);
    view[offset], view[offset + 1] := bytes[0], bytes[1];
  }

  /** Sets one bit per shard; a shard of 1024 or more does not fit, the view rejects the offset. */
  method SetBits(view: array<Byte>, shards: seq<nat>) returns (fits: bool)
    requires view.Length == VECTOR_BYTES && forall i :: 2 <= i < VECTOR_BYTES ==> view[i] == 0
    modifies view
    ensures fits <==> forall k :: 0 <= k < |shards| ==> shards[k] < MAX_SHARD
    ensures view[..2] == old(view[..2])
    ensures fits ==> forall i: nat | i < MAX_SHARD :: VectorHas(view[..], i) <==> i in shards
  {
    EmptyVector(view[..]);
    hide VectorHas, WithBit;
    for n := 0 to |shards|
      invariant view[..2] == old(view[..2])
      invariant forall k :: 0 <= k < n ==> shards[k] < MAX_SHARD
      invariant forall i: nat | i < MAX_SHARD :: VectorHas(view[..], i) <==> i in shards[..n]
    {
      var index := shards[n];
      if index >= MAX_SHARD {
        return false;
      }
      var byteIndex, bitIndex := index / 8 + 2, 7 - index % 8;
      ghost var before := view[..];
      ByteWithBit(view[byteIndex], bitIndex);
      view[byteIndex] := WithBit(view[byteIndex], bitIndex);
      VectorGains(before, view[..], index);
    }
    assert shards[..|shards|] == shards;
    fits := true;
  }

  /** Writes the shards one after the other. */
  method SetList(view: array<Byte>, shards: seq<nat>)
    requires view.Length == 3 + 2 * |shards|
    modifies view
    ensures view[..3] == old(view[..3])
    ensures forall k :: 0 <= k < |shards| ==> view[3 + 2 * k..5 + 2 * k] == Uint16Bytes(shards[k])
  {
    hide Uint16Bytes;
    for i := 0 to |shards|
      invariant view[..3] == old(view[..3])
      invariant forall k :: 0 <= k < i ==> view[3 + 2 * k..5 + 2 * k] == Uint16Bytes(shards[k])
    {
      ghost var before := view[..];
      SetUint16(view, 3 + 2 * i, shards[i]);
      ListGains(before, view[..], shards, i);
    }
  }

  method EncodeRelayShard(info: ShardInfo) returns (r: Result<seq<Byte>, Failure>)
    ensures r.Ok? ==> Encodes(r.value, info)
    ensures r.Err? <==> |info.shards| >= VECTOR_SHARDS
                        && exists k :: 0 <= k < |info.shards| && info.shards[k] >= MAX_SHARD
  {
    hide Uint16Bytes, VectorHas;
    var shards := info.shards;
    var totalLength := if |shards| >= VECTOR_SHARDS then VECTOR_BYTES else 3 + 2 * |shards|;
    var view := new Byte[totalLength](_ => 0);
    SetUint16(view, 0, info.clusterId);
    ghost var header := view[..2];
    assert header == Uint16Bytes(info.clusterId);
    if |shards| >= VECTOR_SHARDS {
      var fits := SetBits(view, shards);
      if !fits {
        return Err(OutOfRange);
      }
    } else {
      view[2] := |shards|;
      SetList(view, shards);
      assert view[..2] == view[..3][..2] && view[2] == view[..3][2];
    }
    r := Ok(view[..]);
  }

  lemma EmptyVector(b: seq<Byte>)
    requires |b| == VECTOR_BYTES && forall i :: 2 <= i < VECTOR_BYTES ==> b[i] == 0
    ensures forall i: nat | i < MAX_SHARD :: !VectorHas(b, i)
  {
    forall i: nat | i < MAX_SHARD
      ensures !VectorHas(b, i)
    {
      ZeroHasNoBits(7 - i % 8);
    }
  }

  /** Writing one more shard leaves what was written before it. */
  lemma ListGains(before: seq<Byte>, after: seq<Byte>, shards: seq<nat>, i: nat)
    requires i < |shards| && |before| == 3 + 2 * |shards|
    requires var two := Uint16Bytes(shards[i]); after == before[3 + 2 * i := two[0]][4 + 2 * i := two[1]]
    requires forall k :: 0 <= k < i ==> before[3 + 2 * k..5 + 2 * k] == Uint16Bytes(shards[k])
    ensures after[..3] == before[..3]
    ensures forall k :: 0 <= k < i + 1 ==> after[3 + 2 * k..5 + 2 * k] == Uint16Bytes(shards[k])
  {
    hide Uint16Bytes;
    forall k | 0 <= k < i + 1
      ensures after[3 + 2 * k..5 + 2 * k] == Uint16Bytes(shards[k])
    {
      if k < i {
        assert before[3 + 2 * k..5 + 2 * k] == Uint16Bytes(shards[k]);
      }
    }
  }

  /** Setting the bit of one index adds that index to the vector and no other. */
  lemma VectorGains(before: seq<Byte>, after: seq<Byte>, index: nat)
    requires |before| == VECTOR_BYTES && index < MAX_SHARD
    requires var k := WithBit(before[index / 8 + 2], 7 - index % 8);
             k < 256 && after == before[index / 8 + 2 := k]
    ensures forall i: nat | i < MAX_SHARD :: VectorHas(after, i) <==> VectorHas(before, i) || i == index
  {
    forall i: nat | i < MAX_SHARD
      ensures VectorHas(after, i) <==> VectorHas(before, i) || i == index
    {
      if i / 8 == index / 8 {
        WithBitSets(before[index / 8 + 2], 7 - index % 8, 7 - i % 8);
      }
    }
  }

  // ---------------------------------------------------------------- decoding

  /** The indices below n that a bit vector holds, in increasing order. */
  function VectorShards(b: seq<Byte>, n: nat): (s: seq<nat>)
    requires |b| == VECTOR_BYTES && n <= MAX_SHARD
  {
    if n == 0 then []
    else VectorShards(b, n - 1) + if VectorHas(b, n - 1) then [n - 1] else []
  }

  /** The first n entries of an index list. */
  function ListShards(b: seq<Byte>, n: nat): (s: seq<nat>)
    requires 3 + 2 * n <= |b|
    ensures |s| == n && forall k :: 0 <= k < n ==> s[k] == Uint16(b[3 + 2 * k], b[4 + 2 * k])
  {
    if n == 0 then [] else ListShards(b, n - 1) + [Uint16(b[1 + 2 * n], b[2 + 2 * n])]
  }

  function Decode(b: seq<Byte>): Result<ShardInfo, Failure> {
    if |b| < 3 then Err(InsufficientData)
    else if |b| == VECTOR_BYTES then Ok(ShardInfo(Uint16(b[0], b[1]), VectorShards(b, MAX_SHARD)))
    else if 3 + 2 * b[2] <= |b| then Ok(ShardInfo(Uint16(b[0], b[1]), ListShards(b, b[2])))
    else Err(UnexpectedEnd)
  }

  method DecodeRelayShard(bytes: seq<Byte>) returns (r: Result<ShardInfo, Failure>)
    ensures r == Decode(bytes)
  {
    if |bytes| < 3 {
      return Err(InsufficientData);
    }
    var clusterId := Uint16(bytes[0], bytes[1]);
    var shards: seq<nat> := [];
    if |bytes| == VECTOR_BYTES {
      for i := 0 to MAX_SHARD
        invariant shards == VectorShards(bytes, i)
      {
        var byteIndex, bitIndex := i / 8 + 2, 7 - i % 8;
        if Bit(bytes[byteIndex], bitIndex) {
          shards := shards + [i];
        }
      }
    } else {
      var numIndices := bytes[2];
      var offset := 3;
      for i := 0 to numIndices
        invariant offset == 3 + 2 * i && offset <= |bytes|
        invariant shards == ListShards(bytes, i)
      {
        if offset + 1 >= |bytes| {
          return Err(UnexpectedEnd);
        }
        shards := shards + [Uint16(bytes[offset], bytes[offset + 1])];
        offset := offset + 2;
      }
    }
    r := Ok(ShardInfo(clusterId, shards));
  }

  // ---------------------------------------------------------------- the round trip

  ghost predicate Increasing(s: seq<nat>) {
    forall i, j :: 0 <= i < j < |s| ==> s[i] < s[j]
  }

  lemma {:induction false} VectorShardsSorted(b: seq<Byte>, n: nat)
    requires |b| == VECTOR_BYTES && n <= MAX_SHARD
    ensures Increasing(VectorShards(b, n))
    ensures forall i: nat :: i in VectorShards(b, n) <==> i < n && VectorHas(b, i)
  {
    if n > 0 {
      VectorShardsSorted(b, n - 1);
      var before := VectorShards(b, n - 1);
      hide VectorHas;
      assert forall i :: 0 <= i < |before| ==> before[i] in before;
    }
  }

  lemma LastIsLargest(s: seq<nat>)
    requires Increasing(s) && s != []
    ensures forall x :: x in s ==> x <= s[|s| - 1]
    ensures Increasing(s[..|s| - 1])
    ensures forall x :: x in s[..|s| - 1] <==> x in s && x != s[|s| - 1]
  {
    var init := s[..|s| - 1];
    assert s == init + [s[|s| - 1]];
  }

  /** The bit of shard i: byte 2 + i / 8, counted from the most significant bit of that byte. */
  ghost predicate BitOf(b: seq<Byte>, i: nat)
    requires |b| == VECTOR_BYTES && i < MAX_SHARD
  {
    WeightIn(b[2 + i / 8], i % 8)
  }

  /** What some bytes say, in their own terms. */
  ghost predicate Says(b: seq<Byte>, info: ShardInfo)
    requires |b| >= 3
  {
    && info.clusterId == b[0] as int * 256 + b[1] as int
    && if |b| == VECTOR_BYTES then
         && Increasing(info.shards)
         && forall i: nat :: i in info.shards <==> i < MAX_SHARD && BitOf(b, i)
       else
         && |info.shards| == b[2] && 3 + 2 * (b[2] as int) <= |b|
         && forall k :: 0 <= k < b[2] ==> info.shards[k] == b[3 + 2 * k] as int * 256 + b[4 + 2 * k] as int
  }

  /** Exactly which bytes are read, and as what; what is left is told apart by its length. */
  lemma DecodesIff(b: seq<Byte>, info: ShardInfo)
    ensures Decode(b) == Ok(info) <==> |b| >= 3 && Says(b, info)
    ensures Decode(b) == Err(InsufficientData) <==> |b| < 3
    ensures Decode(b) == Err(UnexpectedEnd) <==> 3 <= |b| != VECTOR_BYTES && |b| < 3 + 2 * (b[2] as int)
  {
    if |b| == VECTOR_BYTES {
      VectorSays(b, info);
    } else if |b| >= 3 && 3 + 2 * b[2] <= |b| && Says(b, info) {
      assert info.shards == ListShards(b, b[2]);
    }
  }

  lemma VectorSays(b: seq<Byte>, info: ShardInfo)
    requires |b| == VECTOR_BYTES
    ensures Decode(b) == Ok(info) <==> Says(b, info)
  {
    forall i: nat | i < MAX_SHARD
      ensures VectorHas(b, i) <==> BitOf(b, i)
    {
      BitIsWeight(b[2 + i / 8], i % 8);
    }
    VectorShardsSorted(b, MAX_SHARD);
    hide VectorHas, BitOf, VectorShards, Increasing;
    if Says(b, info) {
      IncreasingUnique(info.shards, VectorShards(b, MAX_SHARD));
    }
  }

  /** There is one increasing list of each set. */
  lemma {:induction false} IncreasingUnique(s: seq<nat>, t: seq<nat>)
    requires Increasing(s) && Increasing(t) && forall i :: i in s <==> i in t
    ensures s == t
    decreases |s|
  {
    assert |s| > 0 ==> s[|s| - 1] in t;
    assert |t| > 0 ==> t[|t| - 1] in s;
    if |s| > 0 {
      LastIsLargest(s);
      LastIsLargest(t);
      hide Increasing;
      var s', t' := s[..|s| - 1], t[..|t| - 1];
      assert s[|s| - 1] == t[|t| - 1];
      forall i
        ensures i in s' <==> i in t'
      {
        assert i in s <==> i in t;
      }
      IncreasingUnique(s', t');
      assert s == s' + [s[|s| - 1]] && t == t' + [t[|t| - 1]];
    }
  }

  /** Below 64 shards, decoding returns the same list, every number reduced to 16 bits. */
  lemma ListRoundTrip(info: ShardInfo, b: seq<Byte>)
    requires |info.shards| < VECTOR_SHARDS && Encodes(b, info)
    ensures Decode(b).Ok? && |b| != VECTOR_BYTES
    ensures Decode(b).value.clusterId == info.clusterId % 0x1_0000
    ensures |Decode(b).value.shards| == |info.shards|
    ensures forall k :: 0 <= k < |info.shards| ==> Decode(b).value.shards[k] == info.shards[k] % 0x1_0000
  {
    assert b[0] == b[..2][0] && b[1] == b[..2][1];
    forall k | 0 <= k < |info.shards|
      ensures Uint16(b[3 + 2 * k], b[4 + 2 * k]) == info.shards[k] % 0x1_0000
    {
      var pair := b[3 + 2 * k..5 + 2 * k];
      assert pair[0] == b[3 + 2 * k] && pair[1] == b[4 + 2 * k];
    }
  }

  /** From 64 shards on, decoding returns the increasing list of the same set. */
  lemma VectorRoundTrip(info: ShardInfo, b: seq<Byte>)
    requires |info.shards| >= VECTOR_SHARDS && Encodes(b, info)
    requires forall k :: 0 <= k < |info.shards| ==> info.shards[k] < MAX_SHARD
    ensures Decode(b).Ok? && Decode(b).value.clusterId == info.clusterId % 0x1_0000
    ensures Increasing(Decode(b).value.shards)
    ensures forall i :: i in Decode(b).value.shards <==> i in info.shards
  {
    assert b[0] == b[..2][0] && b[1] == b[..2][1];
    VectorShardsSorted(b, MAX_SHARD);
    forall i | i in info.shards
      ensures i < MAX_SHARD
    {
    }
  }

  /** What comes back unchanged. */
  ghost predicate RoundTrips(info: ShardInfo) {
    && info.clusterId < 0x1_0000
    && if |info.shards| >= VECTOR_SHARDS then
         Increasing(info.shards)
       else
         forall k :: 0 <= k < |info.shards| ==> info.shards[k] < 0x1_0000
  }

  /**
   For every cluster and every list of shards that can be encoded at all, decoding gives back
   the same value exactly when the numbers fit 16 bits and a long list is increasing.
   */
  lemma RoundTripIff(info: ShardInfo, b: seq<Byte>)
    requires Encodes(b, info)
    requires |info.shards| >= VECTOR_SHARDS ==> forall k :: 0 <= k < |info.shards| ==> info.shards[k] < MAX_SHARD
    ensures Decode(b) == Ok(info) <==> RoundTrips(info)
  {
    hide Encodes, Decode;
    if |info.shards| >= VECTOR_SHARDS {
      VectorRoundTrip(info, b);
      if RoundTrips(info) {
        IncreasingUnique(Decode(b).value.shards, info.shards);
      }
    } else {
      ListRoundTrip(info, b);
      var got := Decode(b).value.shards;
      if RoundTrips(info) {
        assert got == info.shards;
      }
    }
  }

  /** What a decoder returned survives any further encoding and decoding unchanged. */
  lemma SecondRoundTripChangesNothing(info: ShardInfo, b: seq<Byte>, b': seq<Byte>)
    requires Encodes(b, info)
    requires |info.shards| >= VECTOR_SHARDS ==> forall k :: 0 <= k < |info.shards| ==> info.shards[k] < MAX_SHARD
    requires Decode(b).Ok? && Encodes(b', Decode(b).value)
    ensures Decode(b') == Decode(b)
  {
    var once := Decode(b).value;
    if |info.shards| >= VECTOR_SHARDS {
      VectorRoundTrip(info, b);
      forall k | 0 <= k < |once.shards|
        ensures once.shards[k] < MAX_SHARD
      {
        assert once.shards[k] in once.shards;
      }
    } else {
      ListRoundTrip(info, b);
    }
    RoundTripIff(once, b');
  }
}
