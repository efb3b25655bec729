/** Decoding undoes encoding, with or without unknown fields inserted along the way. */
module RoundTrips {
  import opened Wrappers
  import opened Bytes
  import opened Varint
  import opened Wire
  import opened Decoding
  import opened Messages
  import opened Codecs

  /** One more block of an encoder: the meanings of two streams compose. */
  lemma Extend<T>(apply: (T, Field) -> T, s: Schema, init: T, fs: seq<Field>, gs: seq<Field>, before: T, after: T)
    requires Meaning(apply, s, init, fs) == Some(before)
    requires Meaning(apply, s, before, gs) == Some(after)
    ensures Meaning(apply, s, init, fs + gs) == Some(after)
  {
    FoldConcat(apply, init, fs, gs);
    AllTypedConcat(s, fs, gs);
  }

  lemma {:induction false} BlockSize(block: nat -> seq<Field>, n: nat, k: nat)
    requires 1 <= k <= n
    ensures |FieldsBytes(block(k))| <= |FieldsBytes(Blocks(block, n))|
  {
    FieldsBytesConcat(Blocks(block, n - 1), block(n));
    if k < n {
      BlockSize(block, n - 1, k);
    }
  }

  /**
   An encoder whose every block brings the value one part further writes a stream that means
   the last part.
   */
  lemma {:induction false} BlocksMean<T>(apply: (T, Field) -> T, s: Schema, init: T,
                                        block: nat -> seq<Field>, part: nat -> T, n: nat)
    requires part(0) == init
    requires forall k: nat | 1 <= k <= n :: Meaning(apply, s, part(k - 1), block(k)) == Some(part(k))
    ensures Meaning(apply, s, init, Blocks(block, n)) == Some(part(n))
  {
    if n > 0 {
      BlocksMean(apply, s, init, block, part, n - 1);
      Extend(apply, s, init, Blocks(block, n - 1), block(n), part(n - 1), part(n));
    }
  }

  lemma Single<T>(apply: (T, Field) -> T, s: Schema, acc: T, f: Field)
    requires Typed(s, f)
    ensures Meaning(apply, s, acc, [f]) == Some(apply(acc, f))
  {
    assert [f][1..] == [];
    assert AllTyped(s, [f]);
    assert Fold(apply, acc, [f]) == apply(acc, f);
  }

  lemma LenBlock<T>(apply: (T, Field) -> T, s: Schema, acc: T, number: nat, content: seq<Byte>)
    requires number < 0x2000_0000 && FieldKind(s, number).LenKind?
    requires |FieldsBytes([LenField(number, content)])| < U32
    ensures var f := LenField(number, content);
            Meaning(apply, s, acc, [f]) == Some(apply(acc, f)) && f.Number() == number
  {
    assert |content| <= |FieldsBytes([LenField(number, content)])|;
    WrittenLen(number, content);
    Single(apply, s, acc, LenField(number, content));
  }

  lemma VarintBlock<T>(apply: (T, Field) -> T, s: Schema, acc: T, number: nat, v: nat)
    requires number < 0x2000_0000 && FieldKind(s, number).VarintKind? && v < U64
    ensures var f := VarintField(number, v);
            Meaning(apply, s, acc, [f]) == Some(apply(acc, f)) && f.Number() == number
    ensures Value(Encode(v)) == v && (v < U32 ==> Value32(Encode(v)) == v)
  {
    WrittenVarint(number, v);
    Single(apply, s, acc, VarintField(number, v));
  }

  lemma MessageBlock<T>(apply: (T, Field) -> T, s: Schema, acc: T, number: nat, fields: seq<Field>, sub: Schema)
    requires number < 0x2000_0000 && FieldKind(s, number) == MessageKind(sub)
    requires AllTyped(sub, fields)
    requires |FieldsBytes([MessageField(number, fields)])| < U32
    ensures var f := MessageField(number, fields);
            Meaning(apply, s, acc, [f]) == Some(apply(acc, f)) && f.Number() == number
  {
    assert |FieldsBytes(fields)| <= |FieldsBytes([MessageField(number, fields)])|;
    TypedIsWellFormed(sub, fields);
    WrittenMessage(number, fields);
    Single(apply, s, acc, MessageField(number, fields));
  }

  // ---------------------------------------------------------------- what each encoder writes

  /** The value with only the first n fields of p. */
  function ProofPart(p: RateLimitProof, n: nat): RateLimitProof {
    RateLimitProof(
      if n >= 1 then p.proof else [],
      if n >= 2 then p.merkleRoot else [],
      if n >= 3 then p.epoch else [],
      if n >= 4 then p.shareX else [],
      if n >= 5 then p.shareY else [],
      if n >= 6 then p.nullifier else [],
      if n >= 7 then p.rlnIdentifier else [])
  }

  /** The bytes of a proof mean that proof. */
  lemma ProofWritten(p: RateLimitProof)
    requires |FieldsBytes(ProofFields(p))| < U32
    ensures Meaning(ApplyProof, ProofSchema, NO_PROOF, ProofFields(p)) == Some(p)
  {
    forall k: nat | 1 <= k <= 7
      ensures Meaning(ApplyProof, ProofSchema, ProofPart(p, k - 1), ProofBlocks(p)(k)) == Some(ProofPart(p, k))
    {
      BlockSize(ProofBlocks(p), 7, k);
      ProofSlotWritten(p, k);
    }
    BlocksMean(ApplyProof, ProofSchema, NO_PROOF, ProofBlocks(p), k => ProofPart(p, k), 7);
  }

  lemma ProofSlotWritten(p: RateLimitProof, n: nat)
    requires 1 <= n <= 7 && |FieldsBytes(ProofSlot(p, n))| < U32
    ensures Meaning(ApplyProof, ProofSchema, ProofPart(p, n - 1), ProofSlot(p, n)) == Some(ProofPart(p, n))
  {
    var v := GetProof(p, n);
    assert SetProof(ProofPart(p, n - 1), n, v) == ProofPart(p, n);
    if |v| > 0 {
      LenBlock(ApplyProof, ProofSchema, ProofPart(p, n - 1), n, v);
    }
  }

  /** The message with only what the first n blocks of the encoder write. */
  function WakuPart(m: WakuMessage, n: nat): WakuMessage {
    WakuMessage(
      if n >= 1 then m.payload else [],
      if n >= 2 then m.contentTopic else [],
      if n >= 3 then m.version else None,
      if n >= 4 then m.timestamp else None,
      if n >= 5 then m.meta else None,
      if n >= 6 then m.rateLimitProof else None,
      if n >= 7 then m.ephemeral else None)
  }

  /** The bytes of a message mean that message. */
  lemma WakuWritten(m: WakuMessage)
    requires |FieldsBytes(WakuFields(m))| < U32
    ensures Meaning(ApplyWaku, WakuSchema, NO_MESSAGE, WakuFields(m)) == Some(m)
  {
    forall k: nat | 1 <= k <= 7
      ensures Meaning(ApplyWaku, WakuSchema, WakuPart(m, k - 1), WakuBlocks(m)(k)) == Some(WakuPart(m, k))
    {
      BlockSize(WakuBlocks(m), 7, k);
      WakuSlotWritten(m, k);
    }
    BlocksMean(ApplyWaku, WakuSchema, NO_MESSAGE, WakuBlocks(m), k => WakuPart(m, k), 7);
  }

  lemma NestedProofWritten(p: RateLimitProof, acc: WakuMessage)
    requires |FieldsBytes([MessageField(21, ProofFields(p))])| < U32
    ensures Meaning(ApplyWaku, WakuSchema, acc, [MessageField(21, ProofFields(p))])
         == Some(acc.(rateLimitProof := Some(p)))
  {
    hide Blocks, AllTyped, Typed;
    var fields := ProofFields(p);
    assert |FieldsBytes(fields)| <= |FieldsBytes([MessageField(21, fields)])|;
    ProofWritten(p);
    MessageBlock(ApplyWaku, WakuSchema, acc, 21, fields, ProofSchema);
  }

  lemma WakuSlotWritten(m: WakuMessage, n: nat)
    requires 1 <= n <= 7 && |FieldsBytes(WakuSlot(m, n))| < U32
    ensures Meaning(ApplyWaku, WakuSchema, WakuPart(m, n - 1), WakuSlot(m, n)) == Some(WakuPart(m, n))
  {
    var before := WakuPart(m, n - 1);
    if WakuSlot(m, n) != [] {
      match n
      case 1 => LenBlock(ApplyWaku, WakuSchema, before, 1, m.payload);
      case 2 => LenBlock(ApplyWaku, WakuSchema, before, 2, m.contentTopic);
      case 3 => VarintBlock(ApplyWaku, WakuSchema, before, 3, m.version.value);
      case 4 =>
        ZigZagInverse(m.timestamp.value, 0);
        VarintBlock(ApplyWaku, WakuSchema, before, 10, ZigZag(m.timestamp.value));
      case 5 => LenBlock(ApplyWaku, WakuSchema, before, 11, m.meta.value);
      case 6 => NestedProofWritten(m.rateLimitProof.value, before);
      case 7 => VarintBlock(ApplyWaku, WakuSchema, before, 31, if m.ephemeral.value then 1 else 0);
    }
  }

  function KeyValuePart(m: WakuMessageKeyValue, n: nat): WakuMessageKeyValue {
    WakuMessageKeyValue(
      if n >= 1 then m.messageHash else None,
      if n >= 2 then m.message else None,
      if n >= 3 then m.pubsubTopic else None)
  }

  lemma KeyValueWritten(m: WakuMessageKeyValue)
    requires |FieldsBytes(KeyValueFields(m))| < U32
    ensures Meaning(ApplyKeyValue, KeyValueSchema, NO_KEY_VALUE, KeyValueFields(m)) == Some(m)
  {
    forall k: nat | 1 <= k <= 3
      ensures Meaning(ApplyKeyValue, KeyValueSchema, KeyValuePart(m, k - 1), KeyValueBlocks(m)(k))
           == Some(KeyValuePart(m, k))
    {
      BlockSize(KeyValueBlocks(m), 3, k);
      KeyValueSlotWritten(m, k);
    }
    BlocksMean(ApplyKeyValue, KeyValueSchema, NO_KEY_VALUE, KeyValueBlocks(m), k => KeyValuePart(m, k), 3);
  }

  lemma NestedWakuWritten(w: WakuMessage, acc: WakuMessageKeyValue)
    requires |FieldsBytes([MessageField(2, WakuFields(w))])| < U32
    ensures Meaning(ApplyKeyValue, KeyValueSchema, acc, [MessageField(2, WakuFields(w))])
         == Some(acc.(message := Some(w)))
  {
    hide Blocks, AllTyped, Typed;
    var fields := WakuFields(w);
    assert |FieldsBytes(fields)| <= |FieldsBytes([MessageField(2, fields)])|;
    WakuWritten(w);
    MessageBlock(ApplyKeyValue, KeyValueSchema, acc, 2, fields, WakuSchema);
  }

  lemma KeyValueSlotWritten(m: WakuMessageKeyValue, n: nat)
    requires 1 <= n <= 3 && |FieldsBytes(KeyValueSlot(m, n))| < U32
    ensures Meaning(ApplyKeyValue, KeyValueSchema, KeyValuePart(m, n - 1), KeyValueSlot(m, n))
         == Some(KeyValuePart(m, n))
  {
    var before := KeyValuePart(m, n - 1);
    if KeyValueSlot(m, n) != [] {
      match n
      case 1 => LenBlock(ApplyKeyValue, KeyValueSchema, before, 1, m.messageHash.value);
      case 2 => NestedWakuWritten(m.message.value, before);
      case 3 => LenBlock(ApplyKeyValue, KeyValueSchema, before, 3, m.pubsubTopic.value);
    }
  }

  function ResponsePart(m: StoreQueryResponse, n: nat): StoreQueryResponse {
    StoreQueryResponse(
      if n >= 1 then m.requestId else [],
      if n >= 2 then m.statusCode else None,
      if n >= 3 then m.statusDesc else None,
      if n >= 4 then m.messages else [],
      if n >= 5 then m.paginationCursor else None)
  }

  lemma NestedKeyValueWritten(kv: WakuMessageKeyValue, acc: StoreQueryResponse)
    requires |FieldsBytes([MessageField(20, KeyValueFields(kv))])| < U32
    ensures Meaning(ApplyResponse, ResponseSchema, acc, [MessageField(20, KeyValueFields(kv))])
         == Some(acc.(messages := acc.messages + [kv]))
  {
    hide Blocks, AllTyped, Typed;
    var fields := KeyValueFields(kv);
    assert |FieldsBytes(fields)| <= |FieldsBytes([MessageField(20, fields)])|;
    KeyValueWritten(kv);
    MessageBlock(ApplyResponse, ResponseSchema, acc, 20, fields, KeyValueSchema);
  }

  function ListPart(acc: StoreQueryResponse, kvs: seq<WakuMessageKeyValue>, n: nat): StoreQueryResponse {
    acc.(messages := if n <= |kvs| then kvs[..n] else kvs)
  }

  lemma PrefixGrows<T>(s: seq<T>, n: nat)
    requires 1 <= n <= |s|
    ensures s[..n - 1] + [s[n - 1]] == s[..n]
  {
  }

  lemma ListSlotWritten(kvs: seq<WakuMessageKeyValue>, acc: StoreQueryResponse, n: nat)
    requires |FieldsBytes(ListFields(kvs))| < U32 && 1 <= n <= |kvs|
    ensures Meaning(ApplyResponse, ResponseSchema, ListPart(acc, kvs, n - 1), ListBlocks(kvs)(n))
         == Some(ListPart(acc, kvs, n))
  {
    BlockSize(ListBlocks(kvs), |kvs|, n);
    PrefixGrows(kvs, n);
    NestedKeyValueWritten(kvs[n - 1], ListPart(acc, kvs, n - 1));
  }

  /** The repeated field means its elements, in order, however many there are. */
  lemma ListWritten(kvs: seq<WakuMessageKeyValue>, acc: StoreQueryResponse)
    requires |FieldsBytes(ListFields(kvs))| < U32 && acc.messages == []
    ensures Meaning(ApplyResponse, ResponseSchema, acc, ListFields(kvs)) == Some(acc.(messages := kvs))
  {
    forall n: nat | 1 <= n <= |kvs|
      ensures Meaning(ApplyResponse, ResponseSchema, ListPart(acc, kvs, n - 1), ListBlocks(kvs)(n))
           == Some(ListPart(acc, kvs, n))
    {
      ListSlotWritten(kvs, acc, n);
    }
    BlocksMean(ApplyResponse, ResponseSchema, acc, ListBlocks(kvs), n => ListPart(acc, kvs, n), |kvs|);
    assert kvs[..|kvs|] == kvs;
  }

  lemma ResponseWritten(m: StoreQueryResponse)
    requires |FieldsBytes(ResponseFields(m))| < U32
    ensures Meaning(ApplyResponse, ResponseSchema, NO_RESPONSE, ResponseFields(m)) == Some(m)
  {
    forall k: nat | 1 <= k <= 5
      ensures Meaning(ApplyResponse, ResponseSchema, ResponsePart(m, k - 1), ResponseBlocks(m)(k))
           == Some(ResponsePart(m, k))
    {
      BlockSize(ResponseBlocks(m), 5, k);
      ResponseSlotWritten(m, k);
    }
    BlocksMean(ApplyResponse, ResponseSchema, NO_RESPONSE, ResponseBlocks(m), k => ResponsePart(m, k), 5);
  }

  lemma ResponseSlotWritten(m: StoreQueryResponse, n: nat)
    requires 1 <= n <= 5 && |FieldsBytes(ResponseSlot(m, n))| < U32
    ensures Meaning(ApplyResponse, ResponseSchema, ResponsePart(m, n - 1), ResponseSlot(m, n))
         == Some(ResponsePart(m, n))
  {
    var before := ResponsePart(m, n - 1);
    if ResponseSlot(m, n) != [] {
      match n
      case 1 => LenBlock(ApplyResponse, ResponseSchema, before, 1, m.requestId);
      case 2 => VarintBlock(ApplyResponse, ResponseSchema, before, 10, m.statusCode.value);
      case 3 => LenBlock(ApplyResponse, ResponseSchema, before, 11, m.statusDesc.value);
      case 4 => ListWritten(m.messages, before);
      case 5 => LenBlock(ApplyResponse, ResponseSchema, before, 51, m.paginationCursor.value);
    }
  }

  // ---------------------------------------------------------------- decoding undoes encoding

  /** Decoding inverts encoding for every message whose encoding stays below 4 GiB. */
  lemma WakuRoundTrip(m: WakuMessage)
    requires |EncodeWaku(m)| < U32
    ensures DecodeWaku(EncodeWaku(m)) == Some(m)
  {
    WakuWritten(m);
    WakuDecodesStream(WakuFields(m));
  }

  lemma ResponseRoundTrip(m: StoreQueryResponse)
    requires |EncodeResponse(m)| < U32
    ensures DecodeResponse(EncodeResponse(m)) == Some(m)
  {
    ResponseWritten(m);
    ResponseDecodesStream(ResponseFields(m));
  }

  /**
   The same with any well-formed unknown fields inserted anywhere, inside the nested proof
   too: whatever stream strips to the fields of m decodes to m.
   */
  lemma WakuRoundTripWithUnknown(m: WakuMessage, fs: seq<Field>)
    requires AllTyped(WakuSchema, fs)
    requires Strip(WakuSchema, fs) == WakuFields(m) && |EncodeWaku(m)| < U32
    ensures DecodeWaku(FieldsBytes(fs)) == Some(m)
  {
    WakuDecodesStream(fs);
    WakuIgnoresUnknown();
    FoldIgnoresUnknown(ApplyWaku, WakuSchema, NO_MESSAGE, fs);
    WakuWritten(m);
  }

  lemma ResponseRoundTripWithUnknown(m: StoreQueryResponse, fs: seq<Field>)
    requires AllTyped(ResponseSchema, fs)
    requires Strip(ResponseSchema, fs) == ResponseFields(m) && |EncodeResponse(m)| < U32
    ensures DecodeResponse(FieldsBytes(fs)) == Some(m)
  {
    ResponseDecodesStream(fs);
    ResponseIgnoresUnknown();
    FoldIgnoresUnknown(ApplyResponse, ResponseSchema, NO_RESPONSE, fs);
    ResponseWritten(m);
  }

  ghost predicate AllUnknown(s: Schema, us: seq<Field>) {
    forall i :: 0 <= i < |us| ==> FieldKind(s, us[i].Number()).Unknown?
  }

  lemma {:induction false} UnknownHasNoEffect<T(!new)>(apply: (T, Field) -> T, s: Schema, acc: T, us: seq<Field>)
    requires IgnoresUnknown(apply, s) && AllUnknown(s, us)
    ensures Fold(apply, acc, us) == acc
    decreases us
  {
    if us != [] {
      UnknownHasNoEffect(apply, s, acc, us[1..]);
    }
  }

  /** Unknown fields put between two parts of a stream leave its meaning as it was. */
  lemma InsertedUnknown<T(!new)>(apply: (T, Field) -> T, s: Schema, init: T,
                                fs: seq<Field>, us: seq<Field>, gs: seq<Field>)
    requires IgnoresUnknown(apply, s) && AllTyped(s, us) && AllUnknown(s, us)
    ensures Meaning(apply, s, init, fs + us + gs) == Meaning(apply, s, init, fs + gs)
  {
    hide IgnoresUnknown, AllUnknown;
    AllTypedConcat(s, fs + us, gs);
    AllTypedConcat(s, fs, us);
    AllTypedConcat(s, fs, gs);
    FoldConcat(apply, init, fs + us, gs);
    FoldConcat(apply, init, fs, us);
    FoldConcat(apply, init, fs, gs);
    UnknownHasNoEffect(apply, s, Fold(apply, init, fs), us);
  }

  /** In particular any unknown fields may come between any two fields of an encoding. */
  lemma WakuRoundTripWithInserted(m: WakuMessage, fs: seq<Field>, us: seq<Field>, gs: seq<Field>)
    requires fs + gs == WakuFields(m) && |EncodeWaku(m)| < U32
    requires AllTyped(WakuSchema, us) && AllUnknown(WakuSchema, us)
    ensures DecodeWaku(FieldsBytes(fs + us + gs)) == Some(m)
  {
    hide FieldsBytes, AllTyped, Fold, DecodeWaku, WakuFields, AllUnknown;
    WakuIgnoresUnknown();
    WakuWritten(m);
    InsertedUnknown(ApplyWaku, WakuSchema, NO_MESSAGE, fs, us, gs);
    WakuDecodesStream(fs + us + gs);
  }

  lemma ResponseRoundTripWithInserted(m: StoreQueryResponse, fs: seq<Field>, us: seq<Field>, gs: seq<Field>)
    requires fs + gs == ResponseFields(m) && |EncodeResponse(m)| < U32
    requires AllTyped(ResponseSchema, us) && AllUnknown(ResponseSchema, us)
    ensures DecodeResponse(FieldsBytes(fs + us + gs)) == Some(m)
  {
    hide FieldsBytes, AllTyped, Fold, DecodeResponse, ResponseFields, AllUnknown;
    ResponseIgnoresUnknown();
    ResponseWritten(m);
    InsertedUnknown(ApplyResponse, ResponseSchema, NO_RESPONSE, fs, us, gs);
    ResponseDecodesStream(fs + us + gs);
  }

  lemma ProofIgnoresUnknown()
    ensures IgnoresUnknown(ApplyProof, ProofSchema)
  {
  }

  lemma WakuIgnoresUnknown()
    ensures IgnoresUnknown(ApplyWaku, WakuSchema)
  {
    ProofIgnoresUnknown();
    forall m: WakuMessage, f: Field, g: Field | SameStripped(WakuSchema, f, g)
      ensures ApplyWaku(m, f) == ApplyWaku(m, g)
    {
      FoldIgnoresUnknown(ApplyProof, ProofSchema, NO_PROOF, f.payload.fields);
    }
  }

  lemma KeyValueIgnoresUnknown()
    ensures IgnoresUnknown(ApplyKeyValue, KeyValueSchema)
  {
    WakuIgnoresUnknown();
    forall m: WakuMessageKeyValue, f: Field, g: Field | SameStripped(KeyValueSchema, f, g)
      ensures ApplyKeyValue(m, f) == ApplyKeyValue(m, g)
    {
      FoldIgnoresUnknown(ApplyWaku, WakuSchema, NO_MESSAGE, f.payload.fields);
    }
  }

  lemma ResponseIgnoresUnknown()
    ensures IgnoresUnknown(ApplyResponse, ResponseSchema)
  {
    KeyValueIgnoresUnknown();
    forall m: StoreQueryResponse, f: Field, g: Field | SameStripped(ResponseSchema, f, g)
      ensures ApplyResponse(m, f) == ApplyResponse(m, g)
    {
      FoldIgnoresUnknown(ApplyKeyValue, KeyValueSchema, NO_KEY_VALUE, f.payload.fields);
    }
  }
}
