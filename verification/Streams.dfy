/**
 What a decoded stream says, field number by field number: of a field that does not repeat the
 last occurrence counts, of the repeated one all of them, in order.
 */
module Streams {
  import opened Wrappers
  import opened Bytes
  import opened Varint
  import opened Wire
  import opened Decoding
  import opened Messages
  import opened Codecs

  // ---------------------------------------------------------------- the last occurrence

  ghost predicate IsLast(fs: seq<Field>, number: nat, i: nat) {
    i < |fs| && fs[i].Number() == number && forall j :: i < j < |fs| ==> fs[j].Number() != number
  }

  ghost predicate Lacks(fs: seq<Field>, number: nat) {
    forall i :: 0 <= i < |fs| ==> fs[i].Number() != number
  }

  /** What the last field of this number says, or the default when there is none. */
  ghost predicate Says<V(!new)>(fs: seq<Field>, number: nat, value: Field -> V, dflt: V, v: V) {
    && (forall i: nat | IsLast(fs, number, i) :: v == value(fs[i]))
    && (Lacks(fs, number) ==> v == dflt)
  }

  /** Fields of one number set one property, and no others do. */
  ghost predicate Sets<T(!new), V(!new)>(s: Schema, apply: (T, Field) -> T, property: T -> V, number: nat,
                                         value: Field -> V) {
    forall m: T, f: Field | Typed(s, f) ::
      property(apply(m, f)) == if f.Number() == number then value(f) else property(m)
  }

  lemma {:induction false} LastCounts<T(!new), V(!new)>(s: Schema, apply: (T, Field) -> T, property: T -> V,
                                                      number: nat, value: Field -> V, init: T, fs: seq<Field>)
    requires Sets(s, apply, property, number, value) && AllTyped(s, fs)
    ensures Says(fs, number, value, property(init), property(Fold(apply, init, fs)))
    decreases |fs|
  {
    if fs != [] {
      var f, rest := fs[0], fs[1..];
      LastCounts(s, apply, property, number, value, apply(init, f), rest);
      hide Fold, AllTyped, Typed, WellFormed;
      assert forall i :: 0 < i < |fs| ==> fs[i] == rest[i - 1];
      assert forall i :: 0 <= i < |rest| ==> rest[i] == fs[i + 1];
      forall i: nat | IsLast(fs, number, i)
        ensures property(Fold(apply, apply(init, f), rest)) == value(fs[i])
      {
        if i > 0 {
          assert IsLast(rest, number, i - 1);
        } else {
          assert Lacks(rest, number);
        }
      }
    }
  }

  // ---------------------------------------------------------------- what one field says

  function BytesOf(f: Field): seq<Byte> {
    Content(f.payload)
  }

  function SomeBytes(f: Field): Option<seq<Byte>> {
    Some(Content(f.payload))
  }

  function Number32(f: Field): Option<Uint32> {
    if f.payload.VarintP? then Some(Value32(f.payload.raw)) else None
  }

  function Number64(f: Field): Option<Int64> {
    if f.payload.VarintP? then Some(UnZigZag(Value(f.payload.raw))) else None
  }

  function Flag(f: Field): Option<bool> {
    if f.payload.VarintP? then Some(Value(f.payload.raw) != 0) else None
  }

  /** The nested messages: what their own streams say. */
  function ProofOf(f: Field): Option<RateLimitProof> {
    if f.payload.MessageP? then Some(Fold(ApplyProof, NO_PROOF, f.payload.fields)) else None
  }

  function WakuOf(f: Field): Option<WakuMessage> {
    if f.payload.MessageP? then Some(Fold(ApplyWaku, NO_MESSAGE, f.payload.fields)) else None
  }

  // ---------------------------------------------------------------- messages

  lemma ProofSays(fs: seq<Field>)
    requires AllTyped(ProofSchema, fs)
    ensures var p := Fold(ApplyProof, NO_PROOF, fs);
            && Says(fs, 1, BytesOf, [], p.proof) && Says(fs, 2, BytesOf, [], p.merkleRoot)
            && Says(fs, 3, BytesOf, [], p.epoch) && Says(fs, 4, BytesOf, [], p.shareX)
            && Says(fs, 5, BytesOf, [], p.shareY) && Says(fs, 6, BytesOf, [], p.nullifier)
            && Says(fs, 7, BytesOf, [], p.rlnIdentifier)
  {
    hide Fold, AllTyped, Typed, Says, Content;
    LastCounts(ProofSchema, ApplyProof, (p: RateLimitProof) => p.proof, 1, BytesOf, NO_PROOF, fs);
    LastCounts(ProofSchema, ApplyProof, (p: RateLimitProof) => p.merkleRoot, 2, BytesOf, NO_PROOF, fs);
    LastCounts(ProofSchema, ApplyProof, (p: RateLimitProof) => p.epoch, 3, BytesOf, NO_PROOF, fs);
    LastCounts(ProofSchema, ApplyProof, (p: RateLimitProof) => p.shareX, 4, BytesOf, NO_PROOF, fs);
    LastCounts(ProofSchema, ApplyProof, (p: RateLimitProof) => p.shareY, 5, BytesOf, NO_PROOF, fs);
    LastCounts(ProofSchema, ApplyProof, (p: RateLimitProof) => p.nullifier, 6, BytesOf, NO_PROOF, fs);
    LastCounts(ProofSchema, ApplyProof, (p: RateLimitProof) => p.rlnIdentifier, 7, BytesOf, NO_PROOF, fs);
  }

  lemma WakuSays(fs: seq<Field>)
    requires AllTyped(WakuSchema, fs)
    ensures DecodeWaku(FieldsBytes(fs)).Some?
    ensures var m := DecodeWaku(FieldsBytes(fs)).value;
            && Says(fs, 1, BytesOf, [], m.payload) && Says(fs, 2, BytesOf, [], m.contentTopic)
            && Says(fs, 3, Number32, None, m.version) && Says(fs, 10, Number64, None, m.timestamp)
            && Says(fs, 11, SomeBytes, None, m.meta) && Says(fs, 21, ProofOf, None, m.rateLimitProof)
            && Says(fs, 31, Flag, None, m.ephemeral)
  {
    hide DecodeWaku, Fold, AllTyped, WellFormed, Says, Content, Value32, Value, UnZigZag;
    WakuDecodesStream(fs);
    LastCounts(WakuSchema, ApplyWaku, (m: WakuMessage) => m.payload, 1, BytesOf, NO_MESSAGE, fs);
    LastCounts(WakuSchema, ApplyWaku, (m: WakuMessage) => m.contentTopic, 2, BytesOf, NO_MESSAGE, fs);
    LastCounts(WakuSchema, ApplyWaku, (m: WakuMessage) => m.version, 3, Number32, NO_MESSAGE, fs);
    LastCounts(WakuSchema, ApplyWaku, (m: WakuMessage) => m.timestamp, 10, Number64, NO_MESSAGE, fs);
    LastCounts(WakuSchema, ApplyWaku, (m: WakuMessage) => m.meta, 11, SomeBytes, NO_MESSAGE, fs);
    LastCounts(WakuSchema, ApplyWaku, (m: WakuMessage) => m.rateLimitProof, 21, ProofOf, NO_MESSAGE, fs);
    LastCounts(WakuSchema, ApplyWaku, (m: WakuMessage) => m.ephemeral, 31, Flag, NO_MESSAGE, fs);
  }

  lemma KeyValueSays(fs: seq<Field>)
    requires AllTyped(KeyValueSchema, fs)
    ensures var kv := Fold(ApplyKeyValue, NO_KEY_VALUE, fs);
            && Says(fs, 1, SomeBytes, None, kv.messageHash) && Says(fs, 2, WakuOf, None, kv.message)
            && Says(fs, 3, SomeBytes, None, kv.pubsubTopic)
  {
    hide Fold, AllTyped, WellFormed, Says, Content;
    LastCounts(KeyValueSchema, ApplyKeyValue, (m: WakuMessageKeyValue) => m.messageHash, 1, SomeBytes,
               NO_KEY_VALUE, fs);
    LastCounts(KeyValueSchema, ApplyKeyValue, (m: WakuMessageKeyValue) => m.message, 2, WakuOf, NO_KEY_VALUE, fs);
    LastCounts(KeyValueSchema, ApplyKeyValue, (m: WakuMessageKeyValue) => m.pubsubTopic, 3, SomeBytes,
               NO_KEY_VALUE, fs);
  }

  // ---------------------------------------------------------------- the repeated field

  /** These are the places of the fields with number 20, and what stands there, in order. */
  ghost predicate Lists(fs: seq<Field>, at: seq<nat>, kvs: seq<WakuMessageKeyValue>) {
    && |at| == |kvs|
    && (forall k, l :: 0 <= k < l < |at| ==> at[k] < at[l])
    && (forall i: nat :: i in at <==> i < |fs| && fs[i].Number() == 20)
    && forall k :: 0 <= k < |at| ==>
         at[k] < |fs| && fs[at[k]].payload.MessageP?
         && kvs[k] == Fold(ApplyKeyValue, NO_KEY_VALUE, fs[at[k]].payload.fields)
  }

  lemma ListsMore(fs: seq<Field>, f: Field, at: seq<nat>, kvs: seq<WakuMessageKeyValue>)
    requires Lists(fs, at, kvs)
    ensures f.Number() != 20 ==> Lists(fs + [f], at, kvs)
    ensures f.Number() == 20 && f.payload.MessageP? ==>
              Lists(fs + [f], at + [|fs|], kvs + [Fold(ApplyKeyValue, NO_KEY_VALUE, f.payload.fields)])
  {
    hide Fold;
    assert forall i :: 0 <= i < |fs| ==> (fs + [f])[i] == fs[i];
  }

  lemma {:induction false} ListSays(fs: seq<Field>) returns (at: seq<nat>)
    requires AllTyped(ResponseSchema, fs)
    ensures Lists(fs, at, Fold(ApplyResponse, NO_RESPONSE, fs).messages)
    decreases |fs|
  {
    at := [];
    if fs != [] {
      var n := |fs| - 1;
      var before, f := fs[..n], fs[n];
      assert fs == before + [f];
      AllTypedConcat(ResponseSchema, before, [f]);
      at := ListSays(before);
      FoldConcat(ApplyResponse, NO_RESPONSE, before, [f]);
      var r := Fold(ApplyResponse, NO_RESPONSE, before);
      assert Fold(ApplyResponse, r, [f]) == ApplyResponse(r, f);
      assert Typed(ResponseSchema, f);
      hide Lists, AllTyped, WellFormed, Fold, Content;
      ListsMore(before, f, at, r.messages);
      if f.Number() == 20 {
        at := at + [n];
      }
    }
  }

  lemma ResponseSays(fs: seq<Field>) returns (at: seq<nat>)
    requires AllTyped(ResponseSchema, fs)
    ensures DecodeResponse(FieldsBytes(fs)).Some?
    ensures var r := DecodeResponse(FieldsBytes(fs)).value;
            && Says(fs, 1, BytesOf, [], r.requestId) && Says(fs, 10, Number32, None, r.statusCode)
            && Says(fs, 11, SomeBytes, None, r.statusDesc) && Says(fs, 51, SomeBytes, None, r.paginationCursor)
            && Lists(fs, at, r.messages)
  {
    hide DecodeResponse, Fold, AllTyped, WellFormed, Says, Content, Value32, Lists;
    ResponseDecodesStream(fs);
    at := ListSays(fs);
    LastCounts(ResponseSchema, ApplyResponse, (r: StoreQueryResponse) => r.requestId, 1, BytesOf, NO_RESPONSE, fs);
    LastCounts(ResponseSchema, ApplyResponse, (r: StoreQueryResponse) => r.statusCode, 10, Number32, NO_RESPONSE, fs);
    LastCounts(ResponseSchema, ApplyResponse, (r: StoreQueryResponse) => r.statusDesc, 11, SomeBytes, NO_RESPONSE, fs);
    LastCounts(ResponseSchema, ApplyResponse, (r: StoreQueryResponse) => r.paginationCursor, 51, SomeBytes,
               NO_RESPONSE, fs);
  }
}
