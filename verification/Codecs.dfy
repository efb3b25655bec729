/**
 Every decoder computes the meaning of every list of correctly typed fields: any order, any
 repeats, any unknown fields, any spelling of the varints. Round trips follow.
 */
module Codecs {
  import opened Wrappers
  import opened Bytes
  import opened Varint
  import opened Wire
  import opened Decoding
  import opened Messages

  lemma ProofStep(p: RateLimitProof, f: Field, b: seq<Byte>, pos: nat)
    requires Typed(ProofSchema, f) && At(b, pos, PayloadBytes(f.payload))
    ensures StepProof(p, f.Number(), f.TagType(), b, pos) == Next(ApplyProof(p, f), |PayloadBytes(f.payload)|)
  {
    if 1 <= f.Number() <= 7 {
      TakeBytesFinds(b, pos, f);
    } else {
      SkipPasses(b, pos, f);
    }
  }

  lemma ProofImplements()
    ensures Implements(StepProof, ApplyProof, ProofSchema)
  {
    forall p: RateLimitProof, f: Field, b: seq<Byte>, pos: nat
      | Typed(ProofSchema, f) && At(b, pos, PayloadBytes(f.payload))
      ensures StepProof(p, f.Number(), f.TagType(), b, pos) == Next(ApplyProof(p, f), |PayloadBytes(f.payload)|)
    {
      ProofStep(p, f, b, pos);
    }
  }

  lemma WakuStep(m: WakuMessage, f: Field, b: seq<Byte>, pos: nat)
    requires Typed(WakuSchema, f) && At(b, pos, PayloadBytes(f.payload))
    ensures StepWaku(m, f.Number(), f.TagType(), b, pos) == Next(ApplyWaku(m, f), |PayloadBytes(f.payload)|)
  {
    match FieldKind(WakuSchema, f.Number())
    case Unknown => SkipPasses(b, pos, f);
    case VarintKind => ReadFinds(b, pos, f.payload.raw);
    case LenKind => TakeBytesFinds(b, pos, f);
    case MessageKind(_) =>
      ProofImplements();
      TakeMessageFinds(StepProof, ApplyProof, ProofSchema, b, pos, NO_PROOF, f);
  }

  lemma WakuImplements()
    ensures Implements(StepWaku, ApplyWaku, WakuSchema)
  {
    forall m: WakuMessage, f: Field, b: seq<Byte>, pos: nat
      | Typed(WakuSchema, f) && At(b, pos, PayloadBytes(f.payload))
      ensures StepWaku(m, f.Number(), f.TagType(), b, pos) == Next(ApplyWaku(m, f), |PayloadBytes(f.payload)|)
    {
      WakuStep(m, f, b, pos);
    }
  }

  lemma TopicStep(m: TopicOnlyMessage, f: Field, b: seq<Byte>, pos: nat)
    requires Typed(TopicSchema, f) && At(b, pos, PayloadBytes(f.payload))
    ensures StepTopic(m, f.Number(), f.TagType(), b, pos) == Next(ApplyTopic(m, f), |PayloadBytes(f.payload)|)
  {
    if f.Number() == 2 {
      TakeBytesFinds(b, pos, f);
    } else {
      SkipPasses(b, pos, f);
    }
  }

  lemma TopicImplements()
    ensures Implements(StepTopic, ApplyTopic, TopicSchema)
  {
    forall m: TopicOnlyMessage, f: Field, b: seq<Byte>, pos: nat
      | Typed(TopicSchema, f) && At(b, pos, PayloadBytes(f.payload))
      ensures StepTopic(m, f.Number(), f.TagType(), b, pos) == Next(ApplyTopic(m, f), |PayloadBytes(f.payload)|)
    {
      TopicStep(m, f, b, pos);
    }
  }

  lemma KeyValueStep(m: WakuMessageKeyValue, f: Field, b: seq<Byte>, pos: nat)
    requires Typed(KeyValueSchema, f) && At(b, pos, PayloadBytes(f.payload))
    ensures StepKeyValue(m, f.Number(), f.TagType(), b, pos) == Next(ApplyKeyValue(m, f), |PayloadBytes(f.payload)|)
  {
    match FieldKind(KeyValueSchema, f.Number())
    case Unknown => SkipPasses(b, pos, f);
    case LenKind => TakeBytesFinds(b, pos, f);
    case MessageKind(_) =>
      WakuImplements();
      TakeMessageFinds(StepWaku, ApplyWaku, WakuSchema, b, pos, NO_MESSAGE, f);
  }

  lemma KeyValueImplements()
    ensures Implements(StepKeyValue, ApplyKeyValue, KeyValueSchema)
  {
    forall m: WakuMessageKeyValue, f: Field, b: seq<Byte>, pos: nat
      | Typed(KeyValueSchema, f) && At(b, pos, PayloadBytes(f.payload))
      ensures StepKeyValue(m, f.Number(), f.TagType(), b, pos) == Next(ApplyKeyValue(m, f), |PayloadBytes(f.payload)|)
    {
      KeyValueStep(m, f, b, pos);
    }
  }

  lemma ResponseStep(m: StoreQueryResponse, f: Field, b: seq<Byte>, pos: nat)
    requires Typed(ResponseSchema, f) && At(b, pos, PayloadBytes(f.payload))
    ensures StepResponse(m, f.Number(), f.TagType(), b, pos) == Next(ApplyResponse(m, f), |PayloadBytes(f.payload)|)
  {
    match FieldKind(ResponseSchema, f.Number())
    case Unknown => SkipPasses(b, pos, f);
    case VarintKind => ReadFinds(b, pos, f.payload.raw);
    case LenKind => TakeBytesFinds(b, pos, f);
    case MessageKind(_) =>
      KeyValueImplements();
      TakeMessageFinds(StepKeyValue, ApplyKeyValue, KeyValueSchema, b, pos, NO_KEY_VALUE, f);
  }

  lemma ResponseImplements()
    ensures Implements(StepResponse, ApplyResponse, ResponseSchema)
  {
    forall m: StoreQueryResponse, f: Field, b: seq<Byte>, pos: nat
      | Typed(ResponseSchema, f) && At(b, pos, PayloadBytes(f.payload))
      ensures StepResponse(m, f.Number(), f.TagType(), b, pos) == Next(ApplyResponse(m, f), |PayloadBytes(f.payload)|)
    {
      ResponseStep(m, f, b, pos);
    }
  }

  // ---------------------------------------------------------------- meaning of whole streams

  /** The full decoder computes the meaning of every stream of typed fields. */
  lemma WakuDecodesStream(fs: seq<Field>)
    requires AllTyped(WakuSchema, fs)
    ensures DecodeWaku(FieldsBytes(fs)) == Some(Fold(ApplyWaku, NO_MESSAGE, fs))
  {
    WakuImplements();
    LoopFolds(StepWaku, ApplyWaku, WakuSchema, FieldsBytes(fs), 0, NO_MESSAGE, fs);
  }

  lemma ResponseDecodesStream(fs: seq<Field>)
    requires AllTyped(ResponseSchema, fs)
    ensures DecodeResponse(FieldsBytes(fs)) == Some(Fold(ApplyResponse, NO_RESPONSE, fs))
  {
    ResponseImplements();
    LoopFolds(StepResponse, ApplyResponse, ResponseSchema, FieldsBytes(fs), 0, NO_RESPONSE, fs);
  }

  lemma {:induction false} WakuTypedIsTopicTyped(fs: seq<Field>)
    requires AllTyped(WakuSchema, fs)
    ensures AllTyped(TopicSchema, fs)
    decreases fs
  {
    if fs != [] {
      WakuTypedIsTopicTyped(fs[1..]);
    }
  }

  lemma {:induction false} FoldsAgreeOnTopic(fs: seq<Field>, m: WakuMessage, t: TopicOnlyMessage)
    requires m.contentTopic == t.contentTopic
    ensures Fold(ApplyWaku, m, fs).contentTopic == Fold(ApplyTopic, t, fs).contentTopic
    decreases fs
  {
    if fs != [] {
      FoldsAgreeOnTopic(fs[1..], ApplyWaku(m, fs[0]), ApplyTopic(t, fs[0]));
    }
  }

  /**
   Routing sees what delivery sees: on every stream of correctly typed WakuMessage fields both
   decoders succeed, and the topic-only one gives exactly the content topic of the full one.
   */
  lemma TopicOnlyAgrees(fs: seq<Field>)
    requires AllTyped(WakuSchema, fs)
    ensures DecodeWaku(FieldsBytes(fs)).Some?
    ensures DecodeTopic(FieldsBytes(fs))
         == Some(TopicOnlyMessage(DecodeWaku(FieldsBytes(fs)).value.contentTopic))
  {
    hide FieldsBytes, AllTyped, Fold, Loop, StepTopic, ApplyTopic, ApplyWaku;
    WakuDecodesStream(fs);
    WakuTypedIsTopicTyped(fs);
    TopicImplements();
    LoopFolds(StepTopic, ApplyTopic, TopicSchema, FieldsBytes(fs), 0, NO_TOPIC, fs);
    FoldsAgreeOnTopic(fs, NO_MESSAGE, NO_TOPIC);
  }

  // ---------------------------------------------------------------- arbitrary bytes

  /**
   A field the full decoder reads as the partial one skips it: known numbers have the wire type
   they call for, and a nested proof lies in the buffer and ends where its length says.
   */
  predicate FieldFramed(number: nat, wireType: nat, b: seq<Byte>, pos: nat) {
    match FieldKind(WakuSchema, number)
    case Unknown => true
    case VarintKind => wireType == 0
    case LenKind => wireType == 2
    case MessageKind(_) => wireType == 2 && ProofFramed(b, pos)
  }

  predicate ProofFramed(b: seq<Byte>, pos: nat) {
    match Read32(b, pos)
    case Short => true
    case Got(len, n) =>
      pos + n + len <= |b|
      && match Loop(StepProof, b, pos + n, pos + n + len, NO_PROOF)
         case Failed => false
         case Done(_, stop) => stop == pos + n + len
  }

  /** The same of every field from a position on, walking from tag to tag by wire type. */
  predicate Framed(b: seq<Byte>, pos: nat)
    decreases Remaining(b, pos)
  {
    pos >= |b|
    || match Read32(b, pos)
       case Short => true
       case Got(tag, n) =>
         FieldFramed(tag / 8, tag % 8, b, pos + n)
         && match Skip(b, pos + n, tag % 8)
            case Stuck => true
            case Past(k) => Framed(b, pos + n + k)
  }

  lemma StepsAgree(m: WakuMessage, t: TopicOnlyMessage, number: nat, wireType: nat, b: seq<Byte>, pos: nat)
    requires FieldFramed(number, wireType, b, pos) && m.contentTopic == t.contentTopic
    ensures match StepWaku(m, number, wireType, b, pos)
            case Thrown => StepTopic(t, number, wireType, b, pos) == Thrown
            case Next(m', k) =>
              && StepTopic(t, number, wireType, b, pos) == Next(TopicOnlyMessage(m'.contentTopic), k)
              && Skip(b, pos, wireType) == Past(k)
  {
    hide Loop, Read, Value;
  }

  /** The first turn of a loop that is not at its end. */
  lemma LoopOnce<T>(step: Step<T>, b: seq<Byte>, pos: nat, acc: T, tag: nat, n: nat)
    requires pos < |b| && Read32(b, pos) == Got(tag, n)
    ensures Loop(step, b, pos, |b|, acc)
         == match step(acc, tag / 8, tag % 8, b, pos + n)
            case Thrown => Failed
            case Next(next, k) => Loop(step, b, pos + n + k, |b|, next)
  {
  }

  lemma LoopEnds<T>(step: Step<T>, b: seq<Byte>, pos: nat, acc: T)
    requires pos >= |b| || Read32(b, pos) == Short
    ensures Loop(step, b, pos, |b|, acc) == if pos >= |b| then Done(acc, pos) else Failed
  {
  }

  lemma {:induction false} FramedLoopsAgree(b: seq<Byte>, pos: nat, m: WakuMessage, t: TopicOnlyMessage)
    requires Framed(b, pos) && m.contentTopic == t.contentTopic
    ensures match Loop(StepWaku, b, pos, |b|, m)
            case Failed => Loop(StepTopic, b, pos, |b|, t) == Failed
            case Done(m', stop) => Loop(StepTopic, b, pos, |b|, t) == Done(TopicOnlyMessage(m'.contentTopic), stop)
    decreases Remaining(b, pos)
  {
    hide StepWaku, StepTopic, FieldFramed, Skip, Loop, Read32;
    if pos >= |b| || Read32(b, pos) == Short {
      LoopEnds(StepWaku, b, pos, m);
      LoopEnds(StepTopic, b, pos, t);
    } else {
      var tag, n := Read32(b, pos).value, Read32(b, pos).size;
      LoopOnce(StepWaku, b, pos, m, tag, n);
      LoopOnce(StepTopic, b, pos, t, tag, n);
      StepsAgree(m, t, tag / 8, tag % 8, b, pos + n);
      match StepWaku(m, tag / 8, tag % 8, b, pos + n)
      case Thrown =>
      case Next(m', k) => FramedLoopsAgree(b, pos + n + k, m', TopicOnlyMessage(m'.contentTopic));
    }
  }

  /**
   Routing and delivery agree on any bytes at all that are framed: both decoders throw, or both
   succeed with the same content topic.
   */
  lemma FramedAgrees(b: seq<Byte>)
    requires Framed(b, 0)
    ensures DecodeTopic(b)
         == match DecodeWaku(b) case None => None case Some(m) => Some(TopicOnlyMessage(m.contentTopic))
  {
    hide Framed, Loop, StepWaku, StepTopic;
    FramedLoopsAgree(b, 0, NO_MESSAGE, NO_TOPIC);
  }

  lemma TypedProofIsFramed(len: seq<Byte>, fields: seq<Field>, b: seq<Byte>, pos: nat)
    requires IsVarint(len) && Value32(len) == |FieldsBytes(fields)| && AllTyped(ProofSchema, fields)
    requires At(b, pos, len + FieldsBytes(fields))
    ensures ProofFramed(b, pos)
  {
    hide FieldsBytes, AllTyped, Value32, IsVarint, At, Loop, Read32;
    ReadLenFinds(b, pos, len, FieldsBytes(fields));
    WithinBuffer(b, pos + |len|, FieldsBytes(fields));
    ProofImplements();
    LoopFolds(StepProof, ApplyProof, ProofSchema, b, pos + |len|, NO_PROOF, fields);
  }

  lemma WithinBuffer(b: seq<Byte>, pos: nat, s: seq<Byte>)
    requires At(b, pos, s)
    ensures pos + |s| <= |b|
  {
  }

  lemma TypedFieldIsFramed(f: Field, b: seq<Byte>, pos: nat)
    requires Typed(WakuSchema, f) && At(b, pos, PayloadBytes(f.payload))
    ensures FieldFramed(f.Number(), f.TagType(), b, pos)
  {
    hide ProofFramed, At, IsVarint, Value32;
    if FieldKind(WakuSchema, f.Number()).MessageKind? {
      TypedProofIsFramed(f.payload.len, f.payload.fields, b, pos);
    }
  }

  /** Correctly typed streams are framed. */
  lemma {:induction false} TypedIsFramed(fs: seq<Field>, b: seq<Byte>, pos: nat)
    requires AllTyped(WakuSchema, fs) && At(b, pos, FieldsBytes(fs)) && pos + |FieldsBytes(fs)| == |b|
    ensures Framed(b, pos)
    decreases fs
  {
    hide Value, Value32, IsVarint, PayloadBytes, Read32, FieldFramed, Skip;
    if fs != [] {
      var f := fs[0];
      AtField(b, pos, fs);
      ReadFinds(b, pos, f.tag);
      TypedFieldIsFramed(f, b, pos + |f.tag|);
      SkipPasses(b, pos + |f.tag|, f);
      TypedIsFramed(fs[1..], b, pos + |f.tag| + |PayloadBytes(f.payload)|);
    }
  }

  // ---------------------------------------------------------------- why framing matters

  lemma OneByte(b: seq<Byte>, pos: nat)
    requires pos < |b| && b[pos] < 128
    ensures Read32(b, pos) == Got(b[pos], 1)
  {
    ReadFinds(b, pos, [b[pos]]);
  }

  /** The content topic "X", the payload "p", and a nested proof that claims one byte. */
  function Misframed(content: seq<Byte>): seq<Byte> {
    [18, 1, 88, 10, 1, 112, 0xAA, 0x01, 0x01, 0x0A, 18, 17] + content
  }

  lemma MisframedReads(content: seq<Byte>)
    requires |content| == 17
    ensures var b := Misframed(content);
            && Read32(b, 0) == Got(18, 1) && Read32(b, 1) == Got(1, 1)
            && Read32(b, 3) == Got(10, 1) && Read32(b, 4) == Got(1, 1)
            && Read32(b, 6) == Got(170, 2) && Read32(b, 8) == Got(1, 1) && Read32(b, 9) == Got(10, 1)
            && Read32(b, 10) == Got(18, 1) && Read32(b, 11) == Got(17, 1)
            && b[2..3] == [88] && b[5..6] == [112] && b[12..29] == content && b[11..29] == [17] + content
  {
    var b := Misframed(content);
    assert Groups([0x01]) == 1;
    assert [0xAA, 0x01][1..] == [0x01];
    assert Groups([0xAA, 0x01]) == 170;
    ReadFinds(b, 6, [0xAA, 0x01]);
    hide Read32, Groups;
    OneByte(b, 0);
    OneByte(b, 1);
    OneByte(b, 3);
    OneByte(b, 4);
    OneByte(b, 8);
    OneByte(b, 9);
    OneByte(b, 10);
    OneByte(b, 11);
  }

  /** One turn of a loop whose tag and step are known. */
  lemma Turn<T>(step: Step<T>, b: seq<Byte>, pos: nat, acc: T, tag: nat, n: nat, next: T, k: nat)
    requires pos < |b| && Read32(b, pos) == Got(tag, n) && step(acc, tag / 8, tag % 8, b, pos + n) == Next(next, k)
    ensures Loop(step, b, pos, |b|, acc) == Loop(step, b, pos + n + k, |b|, next)
  {
  }

  lemma MisframedTopic(content: seq<Byte>)
    requires |content| == 17
    ensures DecodeTopic(Misframed(content)) == Some(TopicOnlyMessage(content))
  {
    var b, x := Misframed(content), TopicOnlyMessage([88]);
    MisframedReads(content);
    hide Read32, Misframed, Loop;
    Turn(StepTopic, b, 0, NO_TOPIC, 18, 1, x, 2);
    Turn(StepTopic, b, 3, x, 10, 1, x, 2);
    Turn(StepTopic, b, 6, x, 170, 2, x, 2);
    Turn(StepTopic, b, 10, x, 18, 1, TopicOnlyMessage(content), 18);
    LoopEnds(StepTopic, b, 29, TopicOnlyMessage(content));
  }

  lemma MisframedProof(content: seq<Byte>)
    requires |content| == 17
    ensures Loop(StepProof, Misframed(content), 9, 10, NO_PROOF) == Done(NO_PROOF.(proof := [17] + content), 29)
  {
    var b, p := Misframed(content), NO_PROOF.(proof := [17] + content);
    MisframedReads(content);
    hide Read32, Misframed;
    assert StepProof(NO_PROOF, 1, 2, b, 10) == Next(p, 19);
    assert Loop(StepProof, b, 29, 10, p) == Done(p, 29);
  }

  lemma MisframedWaku(content: seq<Byte>)
    requires |content| == 17
    ensures DecodeWaku(Misframed(content))
         == Some(WakuMessage([112], [88], None, None, None, Some(NO_PROOF.(proof := [17] + content)), None))
  {
    var b, p := Misframed(content), NO_PROOF.(proof := [17] + content);
    var m1 := NO_MESSAGE.(contentTopic := [88]);
    var m2 := m1.(payload := [112]);
    var m3 := m2.(rateLimitProof := Some(p));
    MisframedReads(content);
    MisframedProof(content);
    hide Read32, Misframed, Loop, StepProof;
    Turn(StepWaku, b, 0, NO_MESSAGE, 18, 1, m1, 2);
    Turn(StepWaku, b, 3, m1, 10, 1, m2, 2);
    Turn(StepWaku, b, 6, m2, 170, 2, m3, 21);
    LoopEnds(StepWaku, b, 29, m3);
  }

  /**
   Why nested fields have to be framed as well: here a proof claims one byte and its decoder
   reads past that, over a second content topic. The partial decoder skips the claimed byte and
   routes on any 17 bytes, while the full decoder sees the topic "X" and a payload.
   */
  lemma MisframedProofDisagrees(content: seq<Byte>)
    requires |content| == 17
    ensures DecodeTopic(Misframed(content)) == Some(TopicOnlyMessage(content))
    ensures DecodeWaku(Misframed(content)).Some?
    ensures DecodeWaku(Misframed(content)).value.contentTopic == [88] != content
    ensures DecodeWaku(Misframed(content)).value.payload == [112]
  {
    MisframedTopic(content);
    MisframedWaku(content);
  }
}
