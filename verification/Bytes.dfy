/** Bytes, and the idea of a byte string occurring at a position of a buffer. */
module Bytes {

  type Byte = b: int | 0 <= b < 256

  ghost predicate At(b: seq<Byte>, pos: nat, s: seq<Byte>) {
    pos + |s| <= |b| && forall i :: 0 <= i < |s| ==> b[pos + i] == s[i]
  }

  lemma AtConcat(b: seq<Byte>, pos: nat, s: seq<Byte>, t: seq<Byte>)
    ensures At(b, pos, s + t) <==> At(b, pos, s) && At(b, pos + |s|, t)
  {
    if At(b, pos, s + t) {
      assert forall i :: 0 <= i < |s| ==> s[i] == (s + t)[i];
      assert forall i :: 0 <= i < |t| ==> t[i] == (s + t)[|s| + i];
    }
  }

  lemma AtConcat3(b: seq<Byte>, pos: nat, s: seq<Byte>, t: seq<Byte>, u: seq<Byte>)
    ensures At(b, pos, s + t + u) <==>
            At(b, pos, s) && At(b, pos + |s|, t) && At(b, pos + |s| + |t|, u)
  {
    AtConcat(b, pos, s + t, u);
    AtConcat(b, pos, s, t);
  }

  // Big-endian 16-bit integers, as a DataView writes and reads them.
  function Uint16(hi: Byte, lo: Byte): nat {
    hi * 256 + lo
  }

  // Writing keeps only the low 16 bits.
  function Uint16Bytes(n: nat): (s: seq<Byte>)
    ensures |s| == 2 && Uint16(s[0], s[1]) == n % 0x1_0000
  {
    var low := n % 0x1_0000;
    [low / 256, low % 256]
  }

  lemma Uint16Written(hi: Byte, lo: Byte)
    ensures Uint16Bytes(Uint16(hi, lo)) == [hi, lo]
  {
  }
}
