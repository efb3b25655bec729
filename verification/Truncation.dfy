/**
 Bytes that end too soon. A prefix of a correctly typed stream decodes exactly when it ends
 between two fields; wherever else it is cut, at any depth, the decoder throws.
 */
module Truncation {
  import opened Wrappers
  import opened Bytes
  import opened Varint
  import opened Wire
  import opened Decoding
  import opened Messages
  import opened Codecs

  // ---------------------------------------------------------------- a buffer that ends inside

  /** From this position on the buffer holds some of these bytes, and ends before the last. */
  ghost predicate Cut(b: seq<Byte>, pos: nat, s: seq<Byte>) {
    && pos <= |b| < pos + |s|
    && forall i :: pos <= i < |b| ==> b[i] == s[i - pos]
  }

  lemma CutConcat(b: seq<Byte>, pos: nat, s: seq<Byte>, t: seq<Byte>)
    ensures Cut(b, pos, s + t) <==> Cut(b, pos, s) || (At(b, pos, s) && Cut(b, pos + |s|, t))
  {
    if Cut(b, pos, s + t) && |b| >= pos + |s| {
      assert forall i :: 0 <= i < |s| ==> b[pos + i] == (s + t)[i];
    }
  }

  lemma {:induction false} ScanCut(b: seq<Byte>, pos: nat, s: seq<Byte>, max: nat)
    requires Cut(b, pos, s) && forall i :: 0 <= i < |s| - 1 ==> s[i] >= 128
    ensures Scan(b, pos, max) == Short
    decreases |s|
  {
    if pos < |b| {
      assert b[pos] == s[0];
      assert forall i :: pos + 1 <= i < |b| ==> b[i] == s[1..][i - (pos + 1)];
      if max > 0 {
        ScanCut(b, pos + 1, s[1..], max - 1);
      }
    }
  }

  lemma VarintCut(b: seq<Byte>, pos: nat, s: seq<Byte>)
    requires IsVarint(s) && Cut(b, pos, s)
    ensures Read(b, pos) == Short && Read32(b, pos) == Short
  {
    ScanCut(b, pos, s, MAX_VARINT_BYTES);
  }

  /** A length prefix and what it announces. */
  lemma LenCut(b: seq<Byte>, pos: nat, len: seq<Byte>, content: seq<Byte>)
    requires IsVarint(len) && Value32(len) == |content| && Cut(b, pos, len + content)
    ensures ReadLen(b, pos) == Overrun
  {
    CutConcat(b, pos, len, content);
    hide IsVarint, Read32;
    if Cut(b, pos, len) {
      VarintCut(b, pos, len);
    } else {
      ReadFinds(b, pos, len);
    }
  }

  // ---------------------------------------------------------------- skipping

  lemma {:induction false} SkipCut(b: seq<Byte>, pos: nat, f: Field)
    requires WellFormed(f) && Cut(b, pos, PayloadBytes(f.payload))
    ensures Skip(b, pos, f.TagType()) == Stuck
    decreases f, 1
  {
    hide IsVarint, Value32, Value;
    match f.payload
    case VarintP(raw) => VarintCut(b, pos, raw);
    case LenP(len, content) => LenCut(b, pos, len, content);
    case MessageP(len, fields) => LenCut(b, pos, len, FieldsBytes(fields));
    case GroupP(fields, endTag) => SkipGroupCut(b, pos, fields, endTag);
    case _ =>
  }

  lemma {:induction false} SkipGroupCut(b: seq<Byte>, pos: nat, fs: seq<Field>, endTag: seq<Byte>)
    requires AllWellFormed(fs) && IsVarint(endTag) && Value32(endTag) % 8 == 4
    requires Cut(b, pos, FieldsBytes(fs) + endTag)
    ensures Skip(b, pos, 3) == Stuck
    decreases fs, 0
  {
    hide IsVarint, Value, PayloadBytes, At, Cut;
    if fs == [] {
      assert FieldsBytes(fs) + endTag == endTag;
      VarintCut(b, pos, endTag);
    } else {
      var f, rest := fs[0], FieldsBytes(fs[1..]) + endTag;
      var n, k := |f.tag|, |PayloadBytes(f.payload)|;
      FieldsBytesCons(fs);
      hide FieldsBytes;
      assert FieldsBytes(fs) + endTag == f.tag + (PayloadBytes(f.payload) + rest);
      CutConcat(b, pos, f.tag, PayloadBytes(f.payload) + rest);
      CutConcat(b, pos + n, PayloadBytes(f.payload), rest);
      if Cut(b, pos, f.tag) {
        VarintCut(b, pos, f.tag);
      } else {
        ReadFinds(b, pos, f.tag);
        if Cut(b, pos + n, PayloadBytes(f.payload)) {
          SkipCut(b, pos + n, f);
        } else {
          SkipPasses(b, pos + n, f);
          SkipGroupCut(b, pos + n + k, fs[1..], endTag);
        }
      }
    }
  }

  // ---------------------------------------------------------------- the loop

  /** A decoder step throws when the buffer ends inside a typed field. */
  ghost predicate Rejects<T(!new)>(step: Step<T>, s: Schema) {
    forall acc: T, f: Field, b: seq<Byte>, pos: nat ::
      Typed(s, f) && Cut(b, pos, PayloadBytes(f.payload)) ==>
        step(acc, f.Number(), f.TagType(), b, pos) == Thrown
  }

  lemma FieldCut<T(!new)>(step: Step<T>, s: Schema, b: seq<Byte>, pos: nat, end: nat, acc: T, f: Field)
    requires Rejects(step, s) && Typed(s, f) && Cut(b, pos, f.tag + PayloadBytes(f.payload)) && pos < end
    ensures Loop(step, b, pos, end, acc) == Failed
  {
    hide Value, IsVarint, PayloadBytes, Cut, At, Read32;
    CutConcat(b, pos, f.tag, PayloadBytes(f.payload));
    if Cut(b, pos, f.tag) {
      VarintCut(b, pos, f.tag);
    } else {
      ReadFinds(b, pos, f.tag);
    }
  }

  /** A loop that is to go on after whole fields goes on behind them. */
  lemma FirstField<T(!new)>(step: Step<T>, apply: (T, Field) -> T, s: Schema, b: seq<Byte>, pos: nat, end: nat,
                            acc: T, f: Field)
    requires Implements(step, apply, s) && Typed(s, f) && pos < end
    requires At(b, pos, f.tag) && At(b, pos + |f.tag|, PayloadBytes(f.payload))
    ensures Loop(step, b, pos, end, acc)
         == Loop(step, b, pos + |f.tag| + |PayloadBytes(f.payload)|, end, apply(acc, f))
  {
    hide Value, IsVarint, PayloadBytes, At, Read32;
    ReadFinds(b, pos, f.tag);
  }

  /** A nested message that is to end behind the end of the buffer. */
  lemma {:induction false} LoopCut<T(!new)>(step: Step<T>, apply: (T, Field) -> T, s: Schema,
                                           b: seq<Byte>, pos: nat, end: nat, acc: T, fs: seq<Field>)
    requires Implements(step, apply, s) && Rejects(step, s) && AllTyped(s, fs)
    requires Cut(b, pos, FieldsBytes(fs)) && end > |b|
    ensures Loop(step, b, pos, end, acc) == Failed
    decreases |fs|
  {
    hide Implements, Rejects, PayloadBytes, At, Typed, Loop;
    if fs != [] {
      var f := fs[0];
      var whole, rest := f.tag + PayloadBytes(f.payload), FieldsBytes(fs[1..]);
      FieldsBytesCons(fs);
      CutConcat(b, pos, whole, rest);
      if Cut(b, pos, whole) {
        FieldCut(step, s, b, pos, end, acc, f);
      } else {
        AtConcat(b, pos, f.tag, PayloadBytes(f.payload));
        FirstField(step, apply, s, b, pos, end, acc, f);
        LoopCut(step, apply, s, b, pos + |whole|, end, apply(acc, f), fs[1..]);
      }
    }
  }

  /** Whole fields and then part of one. */
  lemma {:induction false} LoopStops<T(!new)>(step: Step<T>, apply: (T, Field) -> T, s: Schema,
                                             b: seq<Byte>, pos: nat, acc: T, fs: seq<Field>, f: Field)
    requires Implements(step, apply, s) && Rejects(step, s) && AllTyped(s, fs) && Typed(s, f)
    requires At(b, pos, FieldsBytes(fs)) && pos + |FieldsBytes(fs)| < |b|
    requires Cut(b, pos + |FieldsBytes(fs)|, f.tag + PayloadBytes(f.payload))
    ensures Loop(step, b, pos, |b|, acc) == Failed
    decreases |fs|
  {
    hide Implements, Rejects, PayloadBytes, At, Typed, Loop, Cut;
    if fs == [] {
      FieldCut(step, s, b, pos, |b|, acc, f);
    } else {
      AtField(b, pos, fs);
      FirstField(step, apply, s, b, pos, |b|, acc, fs[0]);
      LoopStops(step, apply, s, b, pos + |fs[0].tag| + |PayloadBytes(fs[0].payload)|, apply(acc, fs[0]), fs[1..], f);
    }
  }

  lemma TakeMessageCut<T(!new)>(step: Step<T>, apply: (T, Field) -> T, s: Schema,
                               b: seq<Byte>, pos: nat, init: T, f: Field)
    requires Implements(step, apply, s) && Rejects(step, s)
    requires WellFormed(f) && f.payload.MessageP? && AllTyped(s, f.payload.fields)
    requires Cut(b, pos, PayloadBytes(f.payload))
    ensures TakeMessage(step, b, pos, init) == Thrown
  {
    var len, fields := f.payload.len, f.payload.fields;
    hide FieldsBytes, AllTyped, Value, IsVarint, Loop, Implements, Rejects;
    CutConcat(b, pos, len, FieldsBytes(fields));
    hide Cut, At, Read32;
    if Cut(b, pos, len) {
      VarintCut(b, pos, len);
    } else {
      ReadFinds(b, pos, len);
      EndsBefore(b, pos + |len|, FieldsBytes(fields));
      LoopCut(step, apply, s, b, pos + |len|, pos + |len| + |FieldsBytes(fields)|, init, fields);
    }
  }

  lemma EndsBefore(b: seq<Byte>, pos: nat, s: seq<Byte>)
    requires Cut(b, pos, s)
    ensures pos <= |b| < pos + |s|
  {
  }

  lemma TakeBytesCut(b: seq<Byte>, pos: nat, f: Field)
    requires WellFormed(f) && WireType(f.payload) == 2 && Cut(b, pos, PayloadBytes(f.payload))
    ensures TakeBytes(b, pos) == Thrown
  {
    match f.payload
    case LenP(len, content) => LenCut(b, pos, len, content);
    case MessageP(len, fields) => LenCut(b, pos, len, FieldsBytes(fields));
  }

  // ---------------------------------------------------------------- the decoders

  lemma ProofCut(p: RateLimitProof, f: Field, b: seq<Byte>, pos: nat)
    requires Typed(ProofSchema, f) && Cut(b, pos, PayloadBytes(f.payload))
    ensures StepProof(p, f.Number(), f.TagType(), b, pos) == Thrown
  {
    if 1 <= f.Number() <= 7 {
      TakeBytesCut(b, pos, f);
    } else {
      SkipCut(b, pos, f);
    }
  }

  lemma ProofRejects()
    ensures Rejects(StepProof, ProofSchema)
  {
    forall m: RateLimitProof, f: Field, b: seq<Byte>, pos: nat
      | Typed(ProofSchema, f) && Cut(b, pos, PayloadBytes(f.payload))
      ensures StepProof(m, f.Number(), f.TagType(), b, pos) == Thrown
    {
      ProofCut(m, f, b, pos);
    }
  }

  lemma WakuCut(m: WakuMessage, f: Field, b: seq<Byte>, pos: nat)
    requires Typed(WakuSchema, f) && Cut(b, pos, PayloadBytes(f.payload))
    ensures StepWaku(m, f.Number(), f.TagType(), b, pos) == Thrown
  {
    match FieldKind(WakuSchema, f.Number())
    case Unknown => SkipCut(b, pos, f);
    case VarintKind => VarintCut(b, pos, f.payload.raw);
    case LenKind => TakeBytesCut(b, pos, f);
    case MessageKind(_) =>
      ProofImplements();
      ProofRejects();
      TakeMessageCut(StepProof, ApplyProof, ProofSchema, b, pos, NO_PROOF, f);
  }

  lemma WakuRejects()
    ensures Rejects(StepWaku, WakuSchema)
  {
    forall m: WakuMessage, f: Field, b: seq<Byte>, pos: nat
      | Typed(WakuSchema, f) && Cut(b, pos, PayloadBytes(f.payload))
      ensures StepWaku(m, f.Number(), f.TagType(), b, pos) == Thrown
    {
      WakuCut(m, f, b, pos);
    }
  }

  lemma TopicCut(m: TopicOnlyMessage, f: Field, b: seq<Byte>, pos: nat)
    requires Typed(TopicSchema, f) && Cut(b, pos, PayloadBytes(f.payload))
    ensures StepTopic(m, f.Number(), f.TagType(), b, pos) == Thrown
  {
    if f.Number() == 2 {
      TakeBytesCut(b, pos, f);
    } else {
      SkipCut(b, pos, f);
    }
  }

  lemma TopicRejects()
    ensures Rejects(StepTopic, TopicSchema)
  {
    forall m: TopicOnlyMessage, f: Field, b: seq<Byte>, pos: nat
      | Typed(TopicSchema, f) && Cut(b, pos, PayloadBytes(f.payload))
      ensures StepTopic(m, f.Number(), f.TagType(), b, pos) == Thrown
    {
      TopicCut(m, f, b, pos);
    }
  }

  lemma KeyValueCut(m: WakuMessageKeyValue, f: Field, b: seq<Byte>, pos: nat)
    requires Typed(KeyValueSchema, f) && Cut(b, pos, PayloadBytes(f.payload))
    ensures StepKeyValue(m, f.Number(), f.TagType(), b, pos) == Thrown
  {
    match FieldKind(KeyValueSchema, f.Number())
    case Unknown => SkipCut(b, pos, f);
    case LenKind => TakeBytesCut(b, pos, f);
    case MessageKind(_) =>
      WakuImplements();
      WakuRejects();
      TakeMessageCut(StepWaku, ApplyWaku, WakuSchema, b, pos, NO_MESSAGE, f);
  }

  lemma KeyValueRejects()
    ensures Rejects(StepKeyValue, KeyValueSchema)
  {
    forall m: WakuMessageKeyValue, f: Field, b: seq<Byte>, pos: nat
      | Typed(KeyValueSchema, f) && Cut(b, pos, PayloadBytes(f.payload))
      ensures StepKeyValue(m, f.Number(), f.TagType(), b, pos) == Thrown
    {
      KeyValueCut(m, f, b, pos);
    }
  }

  lemma ResponseCut(m: StoreQueryResponse, f: Field, b: seq<Byte>, pos: nat)
    requires Typed(ResponseSchema, f) && Cut(b, pos, PayloadBytes(f.payload))
    ensures StepResponse(m, f.Number(), f.TagType(), b, pos) == Thrown
  {
    match FieldKind(ResponseSchema, f.Number())
    case Unknown => SkipCut(b, pos, f);
    case VarintKind => VarintCut(b, pos, f.payload.raw);
    case LenKind => TakeBytesCut(b, pos, f);
    case MessageKind(_) =>
      KeyValueImplements();
      KeyValueRejects();
      TakeMessageCut(StepKeyValue, ApplyKeyValue, KeyValueSchema, b, pos, NO_KEY_VALUE, f);
  }

  lemma ResponseRejects()
    ensures Rejects(StepResponse, ResponseSchema)
  {
    forall m: StoreQueryResponse, f: Field, b: seq<Byte>, pos: nat
      | Typed(ResponseSchema, f) && Cut(b, pos, PayloadBytes(f.payload))
      ensures StepResponse(m, f.Number(), f.TagType(), b, pos) == Thrown
    {
      ResponseCut(m, f, b, pos);
    }
  }

  // ---------------------------------------------------------------- prefixes of streams

  /** The first n bytes are the first k fields. */
  ghost predicate EndsBehind(fs: seq<Field>, n: nat, k: nat) {
    k <= |fs| && |FieldsBytes(fs[..k])| == n
  }

  ghost predicate EndsInside(fs: seq<Field>, n: nat) {
    forall k: nat :: !EndsBehind(fs, n, k)
  }

  /** The field in which a prefix ends. */
  lemma {:induction false} FieldAround(fs: seq<Field>, n: nat, m: nat) returns (k: nat)
    requires EndsInside(fs, n) && m <= |fs| && n < |FieldsBytes(fs[..m])|
    ensures k < |fs| && |FieldsBytes(fs[..k])| < n < |FieldsBytes(fs[..k + 1])|
    decreases m
  {
    k := m - 1;
    assert !EndsBehind(fs, n, k);
    if n < |FieldsBytes(fs[..k])| {
      k := FieldAround(fs, n, k);
    }
  }

  lemma FirstFields(fs: seq<Field>, s: Schema, k: nat)
    requires k <= |fs| && AllTyped(s, fs)
    ensures AllTyped(s, fs[..k]) && FieldsBytes(fs) == FieldsBytes(fs[..k]) + FieldsBytes(fs[k..])
    ensures k < |fs| ==>
              && Typed(s, fs[k])
              && FieldsBytes(fs[..k + 1]) == FieldsBytes(fs[..k]) + (fs[k].tag + PayloadBytes(fs[k].payload))
              && FieldsBytes(fs[k..]) == fs[k].tag + PayloadBytes(fs[k].payload) + FieldsBytes(fs[k + 1..])
  {
    assert fs == fs[..k] + fs[k..];
    FieldsBytesConcat(fs[..k], fs[k..]);
    AllTypedConcat(s, fs[..k], fs[k..]);
    if k < |fs| {
      assert fs[..k + 1] == fs[..k] + [fs[k]];
      FieldsBytesConcat(fs[..k], [fs[k]]);
      assert fs[k..][1..] == fs[k + 1..];
      assert FieldsBytes([fs[k]]) == fs[k].tag + PayloadBytes(fs[k].payload);
    }
  }

  lemma PrefixEnds(whole: seq<Byte>, a: seq<Byte>, w: seq<Byte>, rest: seq<Byte>, n: nat)
    requires whole == a + (w + rest) && |a| < n < |a| + |w|
    ensures At(whole[..n], 0, a) && Cut(whole[..n], |a|, w)
  {
    assert forall i :: 0 <= i < |a| ==> whole[i] == a[i];
    assert forall i :: |a| <= i < n ==> whole[i] == w[i - |a|];
  }

  /** Whatever the decoder: a prefix that ends inside a field is refused. */
  lemma BrokenPrefix<T(!new)>(step: Step<T>, apply: (T, Field) -> T, s: Schema, init: T, fs: seq<Field>, n: nat)
    requires Implements(step, apply, s) && Rejects(step, s) && AllTyped(s, fs) && n <= |FieldsBytes(fs)|
    requires EndsInside(fs, n)
    ensures Loop(step, FieldsBytes(fs)[..n], 0, n, init) == Failed
  {
    assert fs[..|fs|] == fs && !EndsBehind(fs, n, |fs|);
    var k := FieldAround(fs, n, |fs|);
    hide Implements, Rejects, FieldsBytes, PayloadBytes, At, Cut, Loop, Typed, AllTyped, EndsInside;
    FirstFields(fs, s, k);
    PrefixEnds(FieldsBytes(fs), FieldsBytes(fs[..k]), fs[k].tag + PayloadBytes(fs[k].payload),
               FieldsBytes(fs[k + 1..]), n);
    LoopStops(step, apply, s, FieldsBytes(fs)[..n], 0, init, fs[..k], fs[k]);
  }

  /** And one that ends behind a field means what its fields mean. */
  lemma WholePrefix<T(!new)>(step: Step<T>, apply: (T, Field) -> T, s: Schema, init: T, fs: seq<Field>, n: nat, k: nat)
    requires Implements(step, apply, s) && AllTyped(s, fs) && EndsBehind(fs, n, k) && n <= |FieldsBytes(fs)|
    ensures Loop(step, FieldsBytes(fs)[..n], 0, n, init) == Done(Fold(apply, init, fs[..k]), n)
  {
    hide Implements, FieldsBytes, PayloadBytes, Loop, Typed, AllTyped;
    FirstFields(fs, s, k);
    assert FieldsBytes(fs)[..n] == FieldsBytes(fs[..k]);
    LoopFolds(step, apply, s, FieldsBytes(fs)[..n], 0, init, fs[..k]);
  }

  lemma PrefixLoop<T(!new)>(step: Step<T>, apply: (T, Field) -> T, s: Schema, init: T, fs: seq<Field>, n: nat)
    requires Implements(step, apply, s) && Rejects(step, s) && AllTyped(s, fs) && n <= |FieldsBytes(fs)|
    ensures var r := Loop(step, FieldsBytes(fs)[..n], 0, n, init);
            && (forall k: nat | EndsBehind(fs, n, k) :: r == Done(Fold(apply, init, fs[..k]), n))
            && (EndsInside(fs, n) ==> r == Failed)
  {
    hide Implements, Rejects, FieldsBytes, Loop, Fold, AllTyped;
    forall k: nat | EndsBehind(fs, n, k)
      ensures Loop(step, FieldsBytes(fs)[..n], 0, n, init) == Done(Fold(apply, init, fs[..k]), n)
    {
      WholePrefix(step, apply, s, init, fs, n, k);
    }
    if EndsInside(fs, n) {
      BrokenPrefix(step, apply, s, init, fs, n);
    }
  }

  /** A prefix of a message decodes exactly when it ends between two fields, to what stands before. */
  lemma WakuPrefix(fs: seq<Field>, n: nat)
    requires AllTyped(WakuSchema, fs) && n <= |FieldsBytes(fs)|
    ensures DecodeWaku(FieldsBytes(fs)[..n]).Some? <==> exists k: nat :: EndsBehind(fs, n, k)
    ensures forall k: nat | EndsBehind(fs, n, k) ::
              DecodeWaku(FieldsBytes(fs)[..n]) == Some(Fold(ApplyWaku, NO_MESSAGE, fs[..k]))
    ensures DecodeTopic(FieldsBytes(fs)[..n]).Some? <==> DecodeWaku(FieldsBytes(fs)[..n]).Some?
  {
    WakuImplements();
    WakuRejects();
    PrefixLoop(StepWaku, ApplyWaku, WakuSchema, NO_MESSAGE, fs, n);
    WakuTypedIsTopicTyped(fs);
    TopicImplements();
    TopicRejects();
    PrefixLoop(StepTopic, ApplyTopic, TopicSchema, NO_TOPIC, fs, n);
  }

  lemma ResponsePrefix(fs: seq<Field>, n: nat)
    requires AllTyped(ResponseSchema, fs) && n <= |FieldsBytes(fs)|
    ensures DecodeResponse(FieldsBytes(fs)[..n]).Some? <==> exists k: nat :: EndsBehind(fs, n, k)
    ensures forall k: nat | EndsBehind(fs, n, k) ::
              DecodeResponse(FieldsBytes(fs)[..n]) == Some(Fold(ApplyResponse, NO_RESPONSE, fs[..k]))
  {
    ResponseImplements();
    ResponseRejects();
    PrefixLoop(StepResponse, ApplyResponse, ResponseSchema, NO_RESPONSE, fs, n);
  }
}
