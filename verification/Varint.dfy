/**
 Base 128 varints and ZigZag integers, after the sections "Base 128 Varints" and
 "Signed Integers" of the Protocol Buffers encoding specification.
 */
module Varint {
  import opened Bytes

  const U32: nat := 0x1_0000_0000
  const U64: nat := 0x1_0000_0000_0000_0000
  const MAX_VARINT_BYTES: nat := 10

  type Uint32 = n: nat | n < U32
  type Int64 = n: int | -0x8000_0000_0000_0000 <= n < 0x8000_0000_0000_0000

  /** The number spelled by a group of bytes, seven bits from each, least significant first. */
  function Groups(s: seq<Byte>): nat {
    if s == [] then 0 else s[0] % 128 + 128 * Groups(s[1..])
  }

  /** What a reader makes of those bytes: the low 64 bits. */
  function Value(s: seq<Byte>): nat {
    Groups(s) % U64
  }

  function Value32(s: seq<Byte>): nat {
    Value(s) % U32
  }

  /** Any spelling of a varint, the shortest or not: every byte but the last has its top bit set. */
  predicate IsVarint(s: seq<Byte>) {
    && 1 <= |s| <= MAX_VARINT_BYTES
    && s[|s| - 1] < 128
    && forall i :: 0 <= i < |s| - 1 ==> s[i] >= 128
  }

  /** The spelling a writer chooses. */
  function Encode(n: nat): (s: seq<Byte>) {
    if n < 128 then [n] else [n % 128 + 128] + Encode(n / 128)
  }

  /** A number read from a buffer and the bytes it took, or a read past the end. */
  datatype Number = Short | Got(value: nat, size: nat)

  /** The groups of the varint at a position, if it ends within `max` bytes. */
  function Scan(b: seq<Byte>, pos: nat, max: nat): (r: Number)
    ensures r.Got? ==> 1 <= r.size <= max && pos + r.size <= |b|
    decreases |b| - pos
  {
    if max == 0 || pos >= |b| then Short
    else if b[pos] < 128 then Got(b[pos], 1)
    else
      match Scan(b, pos + 1, max - 1)
      case Short => Short
      case Got(v, n) => Got(b[pos] % 128 + 128 * v, n + 1)
  }

  /** The varint at a position. */
  function Read(b: seq<Byte>, pos: nat): (r: Number)
    ensures r.Got? ==> r.value < U64 && 1 <= r.size && pos + r.size <= |b|
  {
    match Scan(b, pos, MAX_VARINT_BYTES)
    case Short => Short
    case Got(v, n) => Got(v % U64, n)
  }

  function Read32(b: seq<Byte>, pos: nat): (r: Number)
    ensures r.Got? ==> r.value < U32 && 1 <= r.size && pos + r.size <= |b|
  {
    match Read(b, pos)
    case Short => Short
    case Got(v, n) => Got(v % U32, n)
  }

  lemma {:induction false} ScanFinds(b: seq<Byte>, pos: nat, s: seq<Byte>, max: nat)
    requires 1 <= |s| <= max && s[|s| - 1] < 128
    requires forall i :: 0 <= i < |s| - 1 ==> s[i] >= 128
    requires At(b, pos, s)
    ensures Scan(b, pos, max) == Got(Groups(s), |s|)
    decreases |s|
  {
    assert b[pos] == s[0];
    if |s| > 1 {
      assert s == [s[0]] + s[1..];
      AtConcat(b, pos, [s[0]], s[1..]);
      ScanFinds(b, pos + 1, s[1..], max - 1);
    }
  }

  /** Every spelling of a varint is read back whole, wherever it lies in the buffer. */
  lemma ReadFinds(b: seq<Byte>, pos: nat, s: seq<Byte>)
    requires IsVarint(s) && At(b, pos, s)
    ensures Read(b, pos) == Got(Value(s), |s|)
    ensures Read32(b, pos) == Got(Value32(s), |s|)
  {
    ScanFinds(b, pos, s, MAX_VARINT_BYTES);
  }

  function Pow128(k: nat): nat {
    if k == 0 then 1 else 128 * Pow128(k - 1)
  }

  lemma {:induction false} EncodeShape(n: nat, k: nat)
    requires n < Pow128(k)
    ensures var s := Encode(n);
            && 1 <= |s| && (k > 0 ==> |s| <= k)
            && Groups(s) == n
            && s[|s| - 1] < 128
            && forall i :: 0 <= i < |s| - 1 ==> s[i] >= 128
    decreases k
  {
    if n >= 128 {
      EncodeShape(n / 128, k - 1);
      assert Encode(n)[1..] == Encode(n / 128);
    }
  }

  /** The writer's spelling is a varint that reads back as the number written. */
  lemma EncodeReads(n: nat)
    requires n < U64
    ensures IsVarint(Encode(n)) && Value(Encode(n)) == n
    ensures n < U32 ==> Value32(Encode(n)) == n
  {
    assert Pow128(5) == 0x8_0000_0000;
    assert Pow128(10) == 0x40_0000_0000_0000_0000;
    EncodeShape(n, 10);
  }

  function ZigZag(n: int): nat {
    if n >= 0 then 2 * n else -2 * n - 1
  }

  function UnZigZag(v: nat): (n: int)
    ensures v < U64 ==> -0x8000_0000_0000_0000 <= n < 0x8000_0000_0000_0000
  {
    if v % 2 == 0 then v / 2 else -((v + 1) / 2)
  }

  /** ZigZag is one-to-one between the signed and the unsigned 64-bit integers. */
  lemma ZigZagInverse(n: Int64, v: nat)
    ensures ZigZag(n) < U64 && UnZigZag(ZigZag(n)) == n
    ensures ZigZag(UnZigZag(v)) == v
  {
  }

  lemma {:induction false} EncodeGrows(a: nat, b: nat)
    requires a <= b
    ensures |Encode(a)| <= |Encode(b)|
  {
    if a >= 128 {
      EncodeGrows(a / 128, b / 128);
    }
  }

  lemma {:induction false} GroupsNeed(s: seq<Byte>)
    requires s != []
    ensures |Encode(Groups(s))| <= |s|
    decreases |s|
  {
    if |s| > 1 {
      GroupsNeed(s[1..]);
      assert Groups(s) / 128 == Groups(s[1..]);
    } else {
      assert s[1..] == [];
    }
  }

  /** Of all spellings of a number the writer chooses a shortest one. */
  lemma EncodeIsShortest(s: seq<Byte>)
    requires s != []
    ensures |Encode(Value(s))| <= |s| && |Encode(Value32(s))| <= |s|
  {
    GroupsNeed(s);
    EncodeGrows(Value(s), Groups(s));
    EncodeGrows(Value32(s), Value(s));
  }

  /** Numbers of small magnitude have small codes, even ones for those that are not negative. */
  lemma ZigZagOrder(a: int, b: int)
    ensures ZigZag(a) % 2 == 0 <==> a >= 0
    ensures (if a < 0 then -a else a) < (if b < 0 then -b else b) ==> ZigZag(a) < ZigZag(b)
  {
  }

  /** Only a varint is read as one, and as the number it spells. */
  lemma {:induction false} ScanIsVarint(b: seq<Byte>, pos: nat, max: nat)
    requires Scan(b, pos, max).Got?
    ensures var n := Scan(b, pos, max).size;
            && Groups(b[pos..pos + n]) == Scan(b, pos, max).value && b[pos + n - 1] < 128
            && forall i :: pos <= i < pos + n - 1 ==> b[i] >= 128
    decreases max
  {
    if b[pos] < 128 {
      assert b[pos..pos + 1] == [b[pos]] && [b[pos]][1..] == [];
    } else {
      ScanIsVarint(b, pos + 1, max - 1);
      var n := Scan(b, pos, max).size;
      assert b[pos..pos + n][1..] == b[pos + 1..pos + n];
    }
  }

  /** Exactly when a varint is read: the bytes there begin with one. */
  lemma ReadIff(b: seq<Byte>, pos: nat, n: nat)
    requires pos + n <= |b|
    ensures (Read(b, pos).Got? && Read(b, pos).size == n) <==> IsVarint(b[pos..pos + n])
    ensures IsVarint(b[pos..pos + n]) ==> Read(b, pos).value == Value(b[pos..pos + n])
  {
    if Read(b, pos).Got? && Read(b, pos).size == n {
      ScanIsVarint(b, pos, MAX_VARINT_BYTES);
    }
    if IsVarint(b[pos..pos + n]) {
      ReadFinds(b, pos, b[pos..pos + n]);
    }
  }

  function Power128(k: nat): nat {
    if k == 0 then 1 else 128 * Power128(k - 1)
  }

  /** Groups of seven bits, the least significant first, whatever the top bits are. */
  lemma {:induction false} GroupsConcat(s: seq<Byte>, t: seq<Byte>)
    ensures Groups(s + t) == Groups(s) + Power128(|s|) * Groups(t)
    ensures |s| == 1 ==> Groups(s) == if s[0] < 128 then s[0] else s[0] - 128
  {
    if s == [] {
      assert s + t == t;
    } else {
      assert (s + t)[1..] == s[1..] + t;
      GroupsConcat(s[1..], t);
      var p, g := Power128(|s| - 1), Groups(t);
      assert 128 * (p * g) == (128 * p) * g;
      assert |s| == 1 ==> Groups(s[1..]) == 0;
    }
  }
}
