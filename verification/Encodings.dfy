/**
 The encodings themselves: which bytes they are, tag by tag, and that no correctly typed stream
 with the same meaning is made of fewer fields or fewer bytes.
 */
module Encodings {
  import opened Wrappers
  import opened Bytes
  import opened Varint
  import opened Wire
  import opened Decoding
  import opened Messages

  // ---------------------------------------------------------------- byte by byte

  function Delimited(v: seq<Byte>): seq<Byte> {
    Encode(|v|) + v
  }

  /** A length-delimited field, if there is something to write. */
  function TagLen(tag: seq<Byte>, v: Option<seq<Byte>>): seq<Byte> {
    match v
    case None => []
    case Some(x) => tag + Delimited(x)
  }

  /** A varint field, if there is something to write. */
  function TagNum(tag: seq<Byte>, v: Option<nat>): seq<Byte> {
    match v
    case None => []
    case Some(x) => tag + Encode(x)
  }

  /** A string or byte string that is left out when empty. */
  function NonEmpty(v: seq<Byte>): Option<seq<Byte>> {
    if |v| > 0 then Some(v) else None
  }

  lemma NextBytes(block: nat -> seq<Field>, n: nat)
    requires n > 0
    ensures FieldsBytes(Blocks(block, n)) == FieldsBytes(Blocks(block, n - 1)) + FieldsBytes(block(n))
  {
    FieldsBytesConcat(Blocks(block, n - 1), block(n));
  }

  lemma NoBytes(block: nat -> seq<Field>)
    ensures FieldsBytes(Blocks(block, 0)) == [] && FieldsBytes([]) == []
  {
  }

  lemma OneField(f: Field)
    ensures FieldsBytes([f]) == f.tag + PayloadBytes(f.payload)
  {
    assert [f][1..] == [];
  }

  lemma ShortTag(n: nat)
    requires n < 128
    ensures Encode(n) == [n]
  {
  }

  lemma LongTag(n: nat)
    requires 128 <= n < 16384
    ensures Encode(n) == [n % 128 + 128, n / 128]
  {
    ShortTag(n / 128);
  }

  /** The tags that the encoders write. */
  lemma Tags()
    ensures Encode(10) == [10] && Encode(18) == [18] && Encode(24) == [24] && Encode(26) == [26]
    ensures Encode(80) == [80] && Encode(90) == [90]
    ensures Encode(162) == [162, 1] && Encode(170) == [170, 1] && Encode(248) == [248, 1] && Encode(410) == [154, 3]
  {
    hide Encode;
    ShortTag(10);
    ShortTag(18);
    ShortTag(24);
    ShortTag(26);
    ShortTag(80);
    ShortTag(90);
    LongTag(162);
    LongTag(170);
    LongTag(248);
    LongTag(410);
  }

  lemma LenBytes(number: nat, v: seq<Byte>)
    ensures FieldsBytes([LenField(number, v)]) == Encode(number * 8 + 2) + Delimited(v)
  {
    OneField(LenField(number, v));
  }

  lemma VarintBytes(number: nat, v: nat)
    ensures FieldsBytes([VarintField(number, v)]) == Encode(number * 8) + Encode(v)
  {
    OneField(VarintField(number, v));
  }

  lemma MessageBytes(number: nat, fields: seq<Field>)
    ensures FieldsBytes([MessageField(number, fields)]) == Encode(number * 8 + 2) + Delimited(FieldsBytes(fields))
  {
    OneField(MessageField(number, fields));
  }

  function ProofBytes(p: RateLimitProof): seq<Byte> {
    FieldsBytes(ProofFields(p))
  }

  /** The proof on the wire: seven byte strings under the tags 10, 18, 26, 34, 42, 50 and 58. */
  lemma ProofLayout(p: RateLimitProof)
    ensures ProofBytes(p)
         == TagLen([10], NonEmpty(p.proof)) + TagLen([18], NonEmpty(p.merkleRoot)) + TagLen([26], NonEmpty(p.epoch))
            + TagLen([34], NonEmpty(p.shareX)) + TagLen([42], NonEmpty(p.shareY)) + TagLen([50], NonEmpty(p.nullifier))
            + TagLen([58], NonEmpty(p.rlnIdentifier))
  {
    var block := ProofBlocks(p);
    ProofSlotBytes(p, 1);
    ProofSlotBytes(p, 2);
    ProofSlotBytes(p, 3);
    ProofSlotBytes(p, 4);
    ProofSlotBytes(p, 5);
    ProofSlotBytes(p, 6);
    ProofSlotBytes(p, 7);
    SevenBlocks(block);
    hide FieldsBytes, Blocks, TagLen, ProofSlot;
  }

  lemma ProofSlotBytes(p: RateLimitProof, n: nat)
    requires 1 <= n <= 7
    ensures FieldsBytes(ProofBlocks(p)(n)) == TagLen([n * 8 + 2], NonEmpty(GetProof(p, n)))
  {
    var v := GetProof(p, n);
    ShortTag(n * 8 + 2);
    LenBytes(n, v);
    NoBytes(ProofBlocks(p));
    hide FieldsBytes, Encode;
  }

  lemma SevenBlocks(block: nat -> seq<Field>)
    ensures FieldsBytes(Blocks(block, 7))
         == FieldsBytes(block(1)) + FieldsBytes(block(2)) + FieldsBytes(block(3)) + FieldsBytes(block(4))
            + FieldsBytes(block(5)) + FieldsBytes(block(6)) + FieldsBytes(block(7))
  {
    hide FieldsBytes, Blocks;
    ThreeBlocks(block);
    NextBytes(block, 4);
    NextBytes(block, 5);
    NextBytes(block, 6);
    NextBytes(block, 7);
  }

  lemma ThreeBlocks(block: nat -> seq<Field>)
    ensures FieldsBytes(Blocks(block, 3)) == FieldsBytes(block(1)) + FieldsBytes(block(2)) + FieldsBytes(block(3))
  {
    hide FieldsBytes, Blocks;
    NoBytes(block);
    NextBytes(block, 1);
    NextBytes(block, 2);
    NextBytes(block, 3);
    assert [] + FieldsBytes(block(1)) == FieldsBytes(block(1));
  }

  lemma LenSlot(number: nat, tag: seq<Byte>, v: Option<seq<Byte>>)
    requires Encode(number * 8 + 2) == tag
    ensures FieldsBytes(if v.Some? then [LenField(number, v.value)] else []) == TagLen(tag, v)
  {
    hide Encode;
    if v.Some? {
      LenBytes(number, v.value);
    }
  }

  lemma VarintSlot(number: nat, tag: seq<Byte>, v: Option<nat>)
    requires Encode(number * 8) == tag
    ensures FieldsBytes(if v.Some? then [VarintField(number, v.value)] else []) == TagNum(tag, v)
  {
    hide Encode;
    if v.Some? {
      VarintBytes(number, v.value);
    }
  }

  lemma MessageSlot(number: nat, tag: seq<Byte>, fields: seq<Field>)
    requires Encode(number * 8 + 2) == tag
    ensures FieldsBytes([MessageField(number, fields)]) == TagLen(tag, Some(FieldsBytes(fields)))
  {
    hide Encode;
    MessageBytes(number, fields);
  }

  lemma NoSlot(tag: seq<Byte>)
    ensures FieldsBytes([]) == TagLen(tag, None)
  {
  }

  /** The number on the wire for a signed one. */
  function Folded(t: Option<Int64>): Option<nat> {
    match t
    case None => None
    case Some(n) => Some(ZigZag(n))
  }

  function EncodedProof(p: Option<RateLimitProof>): Option<seq<Byte>> {
    match p
    case None => None
    case Some(x) => Some(ProofBytes(x))
  }

  function Bit(v: Option<bool>): Option<nat> {
    match v
    case None => None
    case Some(e) => Some(if e then 1 else 0)
  }

  lemma WakuSlotBytes(m: WakuMessage)
    ensures var block := WakuBlocks(m);
            && FieldsBytes(block(1)) == TagLen([10], NonEmpty(m.payload))
            && FieldsBytes(block(2)) == TagLen([18], NonEmpty(m.contentTopic))
            && FieldsBytes(block(3)) == TagNum([24], m.version)
            && FieldsBytes(block(4)) == TagNum([80], Folded(m.timestamp))
  {
    hide FieldsBytes, Encode, TagLen, TagNum;
    Tags();
    LenSlot(1, [10], NonEmpty(m.payload));
    LenSlot(2, [18], NonEmpty(m.contentTopic));
    VarintSlot(3, [24], m.version);
    VarintSlot(10, [80], Folded(m.timestamp));
  }

  lemma WakuLateSlotBytes(m: WakuMessage)
    ensures var block := WakuBlocks(m);
            && FieldsBytes(block(5)) == TagLen([90], m.meta)
            && FieldsBytes(block(6)) == TagLen([170, 1], EncodedProof(m.rateLimitProof))
            && FieldsBytes(block(7)) == TagNum([248, 1], Bit(m.ephemeral))
  {
    hide FieldsBytes, Encode, TagLen, TagNum, ProofFields;
    Tags();
    LenSlot(11, [90], m.meta);
    if m.rateLimitProof.Some? {
      MessageSlot(21, [170, 1], ProofFields(m.rateLimitProof.value));
    } else {
      NoSlot([170, 1]);
    }
    VarintSlot(31, [248, 1], Bit(m.ephemeral));
  }

  /** The message on the wire: empty and absent fields are left out, the rest follow in this order. */
  lemma WakuLayout(m: WakuMessage)
    ensures EncodeWaku(m)
         == TagLen([10], NonEmpty(m.payload))
            + TagLen([18], NonEmpty(m.contentTopic))
            + TagNum([24], m.version)
            + TagNum([80], Folded(m.timestamp))
            + TagLen([90], m.meta)
            + TagLen([170, 1], EncodedProof(m.rateLimitProof))
            + TagNum([248, 1], Bit(m.ephemeral))
  {
    WakuSlotBytes(m);
    WakuLateSlotBytes(m);
    SevenBlocks(WakuBlocks(m));
    hide FieldsBytes, Encode, TagLen, TagNum, WakuBlocks, Blocks;
  }

  function KeyValueBytes(kv: WakuMessageKeyValue): seq<Byte> {
    FieldsBytes(KeyValueFields(kv))
  }

  function EncodedWaku(w: Option<WakuMessage>): Option<seq<Byte>> {
    match w
    case None => None
    case Some(x) => Some(EncodeWaku(x))
  }

  /** A key-value on the wire, with its message nested. */
  lemma KeyValueLayout(kv: WakuMessageKeyValue)
    ensures KeyValueBytes(kv)
         == TagLen([10], kv.messageHash)
            + TagLen([18], EncodedWaku(kv.message))
            + TagLen([26], kv.pubsubTopic)
  {
    hide FieldsBytes, Encode, TagLen, TagNum, WakuFields, Blocks;
    Tags();
    LenSlot(1, [10], kv.messageHash);
    if kv.message.Some? {
      MessageSlot(2, [18], WakuFields(kv.message.value));
    } else {
      NoSlot([18]);
    }
    LenSlot(3, [26], kv.pubsubTopic);
    ThreeBlocks(KeyValueBlocks(kv));
  }

  /** The elements of the repeated field, each under its own tag. */
  function ListBytes(kvs: seq<WakuMessageKeyValue>): seq<Byte> {
    if kvs == [] then [] else ListBytes(kvs[..|kvs| - 1]) + [162, 1] + Delimited(KeyValueBytes(kvs[|kvs| - 1]))
  }

  lemma {:induction false} ListLayout(kvs: seq<WakuMessageKeyValue>, n: nat)
    requires n <= |kvs|
    ensures FieldsBytes(Blocks(ListBlocks(kvs), n)) == ListBytes(kvs[..n])
    decreases n
  {
    hide KeyValueFields;
    if n > 0 {
      ListLayout(kvs, n - 1);
      NextBytes(ListBlocks(kvs), n);
      LongTag(162);
      hide FieldsBytes, Encode, Blocks;
      MessageBytes(20, KeyValueFields(kvs[n - 1]));
      assert kvs[..n][..n - 1] == kvs[..n - 1];
    }
  }

  lemma WholeList(kvs: seq<WakuMessageKeyValue>)
    ensures FieldsBytes(ListFields(kvs)) == ListBytes(kvs)
  {
    ListLayout(kvs, |kvs|);
    assert kvs[..|kvs|] == kvs;
  }

  lemma ResponseSlotBytes(r: StoreQueryResponse)
    ensures var block := ResponseBlocks(r);
            && FieldsBytes(block(1)) == TagLen([10], NonEmpty(r.requestId))
            && FieldsBytes(block(2)) == TagNum([80], r.statusCode)
            && FieldsBytes(block(3)) == TagLen([90], r.statusDesc)
            && FieldsBytes(block(4)) == ListBytes(r.messages)
            && FieldsBytes(block(5)) == TagLen([154, 3], r.paginationCursor)
  {
    hide FieldsBytes, Encode, TagLen, TagNum, ListBytes, ListFields, Blocks;
    Tags();
    WholeList(r.messages);
    LenSlot(1, [10], NonEmpty(r.requestId));
    VarintSlot(10, [80], r.statusCode);
    LenSlot(11, [90], r.statusDesc);
    LenSlot(51, [154, 3], r.paginationCursor);
  }

  /** A response on the wire: its key-values in order under the tag [162, 1]. */
  lemma ResponseLayout(r: StoreQueryResponse)
    ensures EncodeResponse(r)
         == TagLen([10], NonEmpty(r.requestId))
            + TagNum([80], r.statusCode)
            + TagLen([90], r.statusDesc)
            + ListBytes(r.messages)
            + TagLen([154, 3], r.paginationCursor)
  {
    ResponseSlotBytes(r);
    hide FieldsBytes, Encode, TagLen, TagNum, Blocks, ResponseBlocks, ListBytes;
    ThreeBlocks(ResponseBlocks(r));
    NextBytes(ResponseBlocks(r), 4);
    NextBytes(ResponseBlocks(r), 5);
  }

  // ---------------------------------------------------------------- as short as can be

  /** How large a list of fields is: in fields, or in bytes. */
  function Size(inFields: bool, fs: seq<Field>): nat {
    if inFields then |fs| else |FieldsBytes(fs)|
  }

  lemma SizeConcat(inFields: bool, fs: seq<Field>, gs: seq<Field>)
    ensures Size(inFields, fs + gs) == Size(inFields, fs) + Size(inFields, gs)
    ensures Size(inFields, []) == 0
  {
    FieldsBytesConcat(fs, gs);
  }

  lemma SizeFirst(inFields: bool, fs: seq<Field>)
    requires fs != []
    ensures Size(inFields, fs) == Size(inFields, [fs[0]]) + Size(inFields, fs[1..])
  {
    SizeConcat(inFields, [fs[0]], fs[1..]);
    assert fs == [fs[0]] + fs[1..];
  }

  /** One block may grow by a given size, the others not at all. */
  ghost predicate Grows(inFields: bool, before: nat -> seq<Field>, after: nat -> seq<Field>, n: nat,
                        k: nat, extra: nat) {
    forall i: nat | 1 <= i <= n ::
      Size(inFields, after(i)) <= Size(inFields, before(i)) + if i == k then extra else 0
  }

  lemma {:induction false} BlocksGrow(inFields: bool, before: nat -> seq<Field>, after: nat -> seq<Field>, n: nat,
                                     k: nat, extra: nat)
    requires Grows(inFields, before, after, n, k, extra)
    ensures Size(inFields, Blocks(after, n))
         <= Size(inFields, Blocks(before, n)) + if 1 <= k <= n then extra else 0
  {
    hide Size;
    if n > 0 {
      BlocksGrow(inFields, before, after, n - 1, k, extra);
      SizeConcat(inFields, Blocks(before, n - 1), before(n));
      SizeConcat(inFields, Blocks(after, n - 1), after(n));
    }
  }

  /** No field with this number and this content is larger than the one the writer chooses. */
  lemma LenIsShort(inFields: bool, f: Field)
    requires WellFormed(f) && f.TagType() == 2
    ensures Size(inFields, [LenField(f.Number(), Content(f.payload))]) <= Size(inFields, [f])
  {
    OneField(f);
    LenBytes(f.Number(), Content(f.payload));
    EncodeIsShortest(f.tag);
    EncodeIsShortest(f.payload.len);
    assert Value32(f.tag) == f.Number() * 8 + 2;
    assert Value32(f.payload.len) == |Content(f.payload)|;
    hide Encode, Value32, Value, IsVarint;
  }

  lemma VarintIsShort(inFields: bool, f: Field, v: nat)
    requires WellFormed(f) && f.payload.VarintP?
    requires v <= Value(f.payload.raw)
    ensures Size(inFields, [VarintField(f.Number(), v)]) <= Size(inFields, [f])
  {
    OneField(f);
    VarintBytes(f.Number(), v);
    EncodeIsShortest(f.tag);
    EncodeIsShortest(f.payload.raw);
    EncodeGrows(v, Value(f.payload.raw));
    assert Value32(f.tag) == f.Number() * 8;
    hide Encode, Value32, Value, IsVarint;
  }

  lemma MessageIsShort(inFields: bool, f: Field, fields: seq<Field>)
    requires WellFormed(f) && f.payload.MessageP?
    requires |FieldsBytes(fields)| <= |FieldsBytes(f.payload.fields)|
    ensures Size(inFields, [MessageField(f.Number(), fields)]) <= Size(inFields, [f])
  {
    OneField(f);
    MessageBytes(f.Number(), fields);
    EncodeIsShortest(f.tag);
    EncodeIsShortest(f.payload.len);
    EncodeGrows(|FieldsBytes(fields)|, |FieldsBytes(f.payload.fields)|);
    assert Value32(f.tag) == f.Number() * 8 + 2;
    hide Encode, Value32, Value, IsVarint, FieldsBytes;
  }

  lemma SetOther(p: RateLimitProof, number: nat, v: seq<Byte>, i: nat)
    ensures 1 <= i <= 7 ==> GetProof(SetProof(p, number, v), i) == if i == number then v else GetProof(p, i)
  {
  }

  lemma ProofGrows(inFields: bool, p: RateLimitProof, f: Field)
    requires Typed(ProofSchema, f)
    ensures Grows(inFields, ProofBlocks(p), ProofBlocks(ApplyProof(p, f)), 7, f.Number(), Size(inFields, [f]))
  {
    if 1 <= f.Number() <= 7 {
      LenIsShort(inFields, f);
    }
    hide Size, LenField, Content, WellFormed, GetProof, SetProof;
    SizeConcat(inFields, [], []);
    forall i: nat | 1 <= i <= 7
      ensures Size(inFields, ProofBlocks(ApplyProof(p, f))(i))
           <= Size(inFields, ProofBlocks(p)(i)) + if i == f.Number() then Size(inFields, [f]) else 0
    {
      SetOther(p, f.Number(), Content(f.payload), i);
    }
  }

  /** Fields that update a proof make its encoding larger by no more than they are. */
  lemma {:induction false} ProofFrugal(inFields: bool, p: RateLimitProof, fs: seq<Field>)
    requires AllTyped(ProofSchema, fs)
    ensures Size(inFields, ProofFields(Fold(ApplyProof, p, fs))) <= Size(inFields, ProofFields(p)) + Size(inFields, fs)
    decreases fs
  {
    hide Size, Grows, Blocks, ApplyProof;
    SizeConcat(inFields, [], []);
    if fs != [] {
      var p', extra := ApplyProof(p, fs[0]), Size(inFields, [fs[0]]);
      ProofGrows(inFields, p, fs[0]);
      BlocksGrow(inFields, ProofBlocks(p), ProofBlocks(p'), 7, fs[0].Number(), extra);
      SizeFirst(inFields, fs);
      ProofFrugal(inFields, p', fs[1..]);
    }
  }

  /** The block of the encoder that writes a field of this number. */
  function WakuBlockOf(number: nat): nat {
    match number
    case 1 => 1
    case 2 => 2
    case 3 => 3
    case 10 => 4
    case 11 => 5
    case 21 => 6
    case 31 => 7
    case _ => 0
  }

  lemma OtherWakuBlocks(m: WakuMessage, f: Field, i: nat)
    requires Typed(WakuSchema, f) && 1 <= i <= 7 && i != WakuBlockOf(f.Number())
    ensures WakuBlocks(ApplyWaku(m, f))(i) == WakuBlocks(m)(i)
  {
    hide LenField, VarintField, MessageField, Content, AllTyped, ProofFields, Fold, Value, Value32;
  }

  lemma OwnWakuBlock(inFields: bool, m: WakuMessage, f: Field)
    requires Typed(WakuSchema, f) && FieldKind(WakuSchema, f.Number()) != Unknown
    ensures var k := WakuBlockOf(f.Number());
            Size(inFields, WakuBlocks(ApplyWaku(m, f))(k))
              <= Size(inFields, WakuBlocks(m)(k)) + Size(inFields, [f])
  {
    hide Size, LenField, VarintField, MessageField, Content, AllTyped, ProofFields, Fold, Value, Value32;
    SizeConcat(inFields, [], []);
    match FieldKind(WakuSchema, f.Number())
    case LenKind => LenIsShort(inFields, f);
    case VarintKind => WakuVarintIsShort(inFields, f);
    case MessageKind(_) => NestedProofIsShort(inFields, f);
  }

  lemma WakuGrows(inFields: bool, m: WakuMessage, f: Field)
    requires Typed(WakuSchema, f)
    ensures var k := WakuBlockOf(f.Number());
            Grows(inFields, WakuBlocks(m), WakuBlocks(ApplyWaku(m, f)), 7, k, Size(inFields, [f]))
  {
    var k := WakuBlockOf(f.Number());
    var before, after, extra := WakuBlocks(m), WakuBlocks(ApplyWaku(m, f)), Size(inFields, [f]);
    forall i: nat | 1 <= i <= 7
      ensures Size(inFields, after(i)) <= Size(inFields, before(i)) + if i == k then extra else 0
    {
      if i != k {
        OtherWakuBlocks(m, f, i);
      } else {
        OwnWakuBlock(inFields, m, f);
      }
    }
    hide Size, WakuBlocks, ApplyWaku;
    assert Grows(inFields, before, after, 7, k, extra);
  }

  lemma WakuVarintIsShort(inFields: bool, f: Field)
    requires WellFormed(f) && f.payload.VarintP?
    ensures Size(inFields, [VarintField(f.Number(), Value32(f.payload.raw))]) <= Size(inFields, [f])
    ensures Size(inFields, [VarintField(f.Number(), ZigZag(UnZigZag(Value(f.payload.raw))))]) <= Size(inFields, [f])
    ensures Size(inFields, [VarintField(f.Number(), if Value(f.payload.raw) != 0 then 1 else 0)]) <= Size(inFields, [f])
  {
    hide Size, VarintField, WellFormed;
    ZigZagInverse(0, Value(f.payload.raw));
    VarintIsShort(inFields, f, Value32(f.payload.raw));
    VarintIsShort(inFields, f, Value(f.payload.raw));
    VarintIsShort(inFields, f, if Value(f.payload.raw) != 0 then 1 else 0);
  }

  lemma NestedProofIsShort(inFields: bool, f: Field)
    requires WellFormed(f) && f.payload.MessageP? && AllTyped(ProofSchema, f.payload.fields)
    ensures var p := Fold(ApplyProof, NO_PROOF, f.payload.fields);
            Size(inFields, [MessageField(f.Number(), ProofFields(p))]) <= Size(inFields, [f])
  {
    var p := Fold(ApplyProof, NO_PROOF, f.payload.fields);
    ProofFrugal(false, NO_PROOF, f.payload.fields);
    NothingProof();
    hide ProofFields, Fold;
    MessageIsShort(inFields, f, ProofFields(p));
  }

  lemma NothingProof()
    ensures ProofFields(NO_PROOF) == []
  {
    hide ProofFields;
    var block := ProofBlocks(NO_PROOF);
    assert forall k: nat :: 1 <= k <= 7 ==> block(k) == [];
    EmptyBlocks(block, 7);
    ProofFieldsAre(NO_PROOF);
  }

  lemma ProofFieldsAre(p: RateLimitProof)
    ensures ProofFields(p) == Blocks(ProofBlocks(p), 7)
  {
    hide Blocks;
  }

  lemma {:induction false} EmptyBlocks(block: nat -> seq<Field>, n: nat)
    requires forall k: nat :: 1 <= k <= n ==> block(k) == []
    ensures Blocks(block, n) == []
  {
    if n > 0 {
      EmptyBlocks(block, n - 1);
    }
  }

  lemma {:induction false} WakuFrugal(inFields: bool, m: WakuMessage, fs: seq<Field>)
    requires AllTyped(WakuSchema, fs)
    ensures Size(inFields, WakuFields(Fold(ApplyWaku, m, fs))) <= Size(inFields, WakuFields(m)) + Size(inFields, fs)
    decreases fs
  {
    hide Size, Grows, Blocks, ApplyWaku, Typed;
    SizeConcat(inFields, [], []);
    if fs != [] {
      var m', extra := ApplyWaku(m, fs[0]), Size(inFields, [fs[0]]);
      WakuGrows(inFields, m, fs[0]);
      BlocksGrow(inFields, WakuBlocks(m), WakuBlocks(m'), 7, WakuBlockOf(fs[0].Number()), extra);
      SizeFirst(inFields, fs);
      WakuFrugal(inFields, m', fs[1..]);
    }
  }

  lemma NothingWaku()
    ensures WakuFields(NO_MESSAGE) == []
  {
    hide Blocks;
    var block := WakuBlocks(NO_MESSAGE);
    assert forall k: nat :: 1 <= k <= 7 ==> block(k) == [];
    EmptyBlocks(block, 7);
  }

  /**
   The encoder is frugal: of all correctly typed streams that decode to a message none has fewer
   fields than its encoding, and none has fewer bytes.
   */
  lemma WakuEncodingIsShortest(m: WakuMessage, fs: seq<Field>)
    requires AllTyped(WakuSchema, fs) && Fold(ApplyWaku, NO_MESSAGE, fs) == m
    ensures |WakuFields(m)| <= |fs| && |EncodeWaku(m)| <= |FieldsBytes(fs)|
  {
    NothingWaku();
    WakuFrugal(true, NO_MESSAGE, fs);
    WakuFrugal(false, NO_MESSAGE, fs);
    hide WakuFields, Fold, AllTyped, FieldsBytes;
    NoBytes(k => []);
  }

  lemma KeyValueGrows(inFields: bool, kv: WakuMessageKeyValue, f: Field)
    requires Typed(KeyValueSchema, f)
    ensures Grows(inFields, KeyValueBlocks(kv), KeyValueBlocks(ApplyKeyValue(kv, f)), 3,
                  f.Number(), Size(inFields, [f]))
  {
    hide Size, LenField, MessageField, Content, AllTyped, WakuFields, Fold;
    SizeConcat(inFields, [], []);
    match FieldKind(KeyValueSchema, f.Number())
    case Unknown =>
    case LenKind => LenIsShort(inFields, f);
    case MessageKind(_) => NestedWakuIsShort(inFields, f);
  }

  lemma NestedWakuIsShort(inFields: bool, f: Field)
    requires WellFormed(f) && f.payload.MessageP? && AllTyped(WakuSchema, f.payload.fields)
    ensures var m := Fold(ApplyWaku, NO_MESSAGE, f.payload.fields);
            Size(inFields, [MessageField(f.Number(), WakuFields(m))]) <= Size(inFields, [f])
  {
    hide WakuFields, Fold, WellFormed, AllTyped, Size, MessageField;
    var m := Fold(ApplyWaku, NO_MESSAGE, f.payload.fields);
    WakuEncodingIsShortest(m, f.payload.fields);
    MessageIsShort(inFields, f, WakuFields(m));
  }

  lemma {:induction false} KeyValueFrugal(inFields: bool, kv: WakuMessageKeyValue, fs: seq<Field>)
    requires AllTyped(KeyValueSchema, fs)
    ensures Size(inFields, KeyValueFields(Fold(ApplyKeyValue, kv, fs)))
         <= Size(inFields, KeyValueFields(kv)) + Size(inFields, fs)
    decreases fs
  {
    hide Size, Grows, Blocks, ApplyKeyValue, Typed;
    SizeConcat(inFields, [], []);
    if fs != [] {
      var kv', extra := ApplyKeyValue(kv, fs[0]), Size(inFields, [fs[0]]);
      KeyValueGrows(inFields, kv, fs[0]);
      BlocksGrow(inFields, KeyValueBlocks(kv), KeyValueBlocks(kv'), 3, fs[0].Number(), extra);
      SizeFirst(inFields, fs);
      KeyValueFrugal(inFields, kv', fs[1..]);
    }
  }

  lemma NestedKeyValueIsShort(inFields: bool, f: Field)
    requires WellFormed(f) && f.payload.MessageP? && AllTyped(KeyValueSchema, f.payload.fields)
    ensures var kv := Fold(ApplyKeyValue, NO_KEY_VALUE, f.payload.fields);
            Size(inFields, [MessageField(f.Number(), KeyValueFields(kv))]) <= Size(inFields, [f])
  {
    NothingElse();
    hide KeyValueFields, Fold, WellFormed, AllTyped, MessageField, FieldsBytes;
    var kv := Fold(ApplyKeyValue, NO_KEY_VALUE, f.payload.fields);
    KeyValueFrugal(false, NO_KEY_VALUE, f.payload.fields);
    NoBytes(k => []);
    MessageIsShort(inFields, f, KeyValueFields(kv));
  }

  lemma NothingElse()
    ensures KeyValueFields(NO_KEY_VALUE) == [] && ResponseFields(NO_RESPONSE) == []
  {
    hide Blocks;
    var block, blocks := KeyValueBlocks(NO_KEY_VALUE), ResponseBlocks(NO_RESPONSE);
    EmptyBlocks(ListBlocks([]), 0);
    assert forall k: nat :: 1 <= k <= 3 ==> block(k) == [];
    assert forall k: nat :: 1 <= k <= 5 ==> blocks(k) == [];
    EmptyBlocks(block, 3);
    EmptyBlocks(blocks, 5);
  }

  lemma {:induction false} SameBlocks(a: nat -> seq<Field>, b: nat -> seq<Field>, n: nat)
    requires forall k: nat :: 1 <= k <= n ==> a(k) == b(k)
    ensures Blocks(a, n) == Blocks(b, n)
  {
    if n > 0 {
      SameBlocks(a, b, n - 1);
    }
  }

  lemma ListSnoc(kvs: seq<WakuMessageKeyValue>, kv: WakuMessageKeyValue)
    ensures ListFields(kvs + [kv]) == ListFields(kvs) + [MessageField(20, KeyValueFields(kv))]
  {
    hide KeyValueFields;
    SameBlocks(ListBlocks(kvs + [kv]), ListBlocks(kvs), |kvs|);
  }

  function ResponseBlockOf(number: nat): nat {
    match number
    case 1 => 1
    case 10 => 2
    case 11 => 3
    case 20 => 4
    case 51 => 5
    case _ => 0
  }

  lemma ResponseGrows(inFields: bool, r: StoreQueryResponse, f: Field)
    requires Typed(ResponseSchema, f)
    ensures var k := ResponseBlockOf(f.Number());
            Grows(inFields, ResponseBlocks(r), ResponseBlocks(ApplyResponse(r, f)), 5, k, Size(inFields, [f]))
  {
    hide Size, LenField, VarintField, MessageField, Content, AllTyped, KeyValueFields, ListFields, Fold, Value, Value32;
    SizeConcat(inFields, [], []);
    match FieldKind(ResponseSchema, f.Number())
    case Unknown =>
    case LenKind => LenIsShort(inFields, f);
    case VarintKind => WakuVarintIsShort(inFields, f);
    case MessageKind(_) =>
      var kv := Fold(ApplyKeyValue, NO_KEY_VALUE, f.payload.fields);
      NestedKeyValueIsShort(inFields, f);
      ListSnoc(r.messages, kv);
      SizeConcat(inFields, ListFields(r.messages), [MessageField(20, KeyValueFields(kv))]);
  }

  lemma {:induction false} ResponseFrugal(inFields: bool, r: StoreQueryResponse, fs: seq<Field>)
    requires AllTyped(ResponseSchema, fs)
    ensures Size(inFields, ResponseFields(Fold(ApplyResponse, r, fs)))
         <= Size(inFields, ResponseFields(r)) + Size(inFields, fs)
    decreases fs
  {
    hide Size, Grows, Blocks, ApplyResponse, Typed, ResponseSlot;
    SizeConcat(inFields, [], []);
    if fs != [] {
      var r', extra := ApplyResponse(r, fs[0]), Size(inFields, [fs[0]]);
      ResponseGrows(inFields, r, fs[0]);
      BlocksGrow(inFields, ResponseBlocks(r), ResponseBlocks(r'), 5, ResponseBlockOf(fs[0].Number()), extra);
      SizeFirst(inFields, fs);
      ResponseFrugal(inFields, r', fs[1..]);
    }
  }

  /** The same of responses, their lists and nested messages included. */
  lemma ResponseEncodingIsShortest(r: StoreQueryResponse, fs: seq<Field>)
    requires AllTyped(ResponseSchema, fs) && Fold(ApplyResponse, NO_RESPONSE, fs) == r
    ensures |ResponseFields(r)| <= |fs| && |EncodeResponse(r)| <= |FieldsBytes(fs)|
  {
    NothingElse();
    ResponseFrugal(true, NO_RESPONSE, fs);
    ResponseFrugal(false, NO_RESPONSE, fs);
    hide ResponseFields, Fold, AllTyped, FieldsBytes;
    NoBytes(k => []);
  }
}
