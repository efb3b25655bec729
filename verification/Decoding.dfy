/**
 What the generated codecs have in common: the field tables, the decoding loop, and the
 meaning of a list of fields.
 */
module Decoding {
  import opened Wrappers
  import opened Bytes
  import opened Varint
  import opened Wire

  /** The messages whose codecs are modelled. */
  datatype Schema = ProofSchema | WakuSchema | TopicSchema | KeyValueSchema | ResponseSchema

  datatype Kind = Unknown | VarintKind | LenKind | MessageKind(schema: Schema)

  /** The field tables: which numbers each decoder dispatches on, and what it reads there. */
  function FieldKind(s: Schema, number: nat): Kind {
    match s
    case ProofSchema => if 1 <= number <= 7 then LenKind else Unknown
    case WakuSchema =>
      if number == 1 || number == 2 || number == 11 then LenKind
      else if number == 3 || number == 10 || number == 31 then VarintKind
      else if number == 21 then MessageKind(ProofSchema)
      else Unknown
    case TopicSchema => if number == 2 then LenKind else Unknown
    case KeyValueSchema =>
      if number == 1 || number == 3 then LenKind
      else if number == 2 then MessageKind(WakuSchema)
      else Unknown
    case ResponseSchema =>
      if number == 1 || number == 11 || number == 51 then LenKind
      else if number == 10 then VarintKind
      else if number == 20 then MessageKind(KeyValueSchema)
      else Unknown
  }

  /** A well-formed field whose wire type is the one its number calls for, at every depth. */
  predicate Typed(s: Schema, f: Field)
    decreases f, 1
  {
    && WellFormed(f)
    && match FieldKind(s, f.Number())
       case Unknown => true
       case VarintKind => f.payload.VarintP?
       case LenKind => WireType(f.payload) == 2
       case MessageKind(sub) => f.payload.MessageP? && AllTyped(sub, f.payload.fields)
  }

  predicate AllTyped(s: Schema, fs: seq<Field>)
    decreases fs, 0
  {
    fs == [] || (Typed(s, fs[0]) && AllTyped(s, fs[1..]))
  }

  // ---------------------------------------------------------------- the decoding loop

  /** The value so far and the bytes a step consumed, or the exception it throws. */
  datatype Stepped<T> = Thrown | Next(value: T, size: nat)

  /**
   What one decoder does with one field: from the value so far, the field number, the wire
   type and the position after the tag.
   */
  type Step<!T> = (T, nat, nat, seq<Byte>, nat) -> Stepped<T>

  /** The decoded value and the position where the loop stopped, or the exception. */
  datatype Decoded<T> = Failed | Done(value: T, stop: nat)

  /** The loop of every decoder: read a tag, dispatch, until the end position is reached. */
  function Loop<T>(step: Step<T>, b: seq<Byte>, pos: nat, end: nat, acc: T): (r: Decoded<T>)
    ensures r.Done? ==> r.stop >= pos && r.stop >= end
    decreases Remaining(b, pos)
  {
    if pos >= end then Done(acc, pos)
    else
      match Read32(b, pos)
      case Short => Failed
      case Got(tag, n) =>
        match step(acc, tag / 8, tag % 8, b, pos + n)
        case Thrown => Failed
        case Next(acc', k) => Loop(step, b, pos + n + k, end, acc')
  }

  /** A length-delimited value: `reader.bytes()` and `reader.string()`. */
  function TakeBytes(b: seq<Byte>, pos: nat): Stepped<seq<Byte>> {
    match ReadLen(b, pos)
    case Overrun => Thrown
    case Fits(prefix, size) => Next(b[pos + prefix..pos + size], size)
  }

  /** A nested message: its length, then the loop of its decoder up to that length. */
  function TakeMessage<T>(step: Step<T>, b: seq<Byte>, pos: nat, init: T): Stepped<T> {
    match Read32(b, pos)
    case Short => Thrown
    case Got(len, n) =>
      match Loop(step, b, pos + n, pos + n + len, init)
      case Failed => Thrown
      case Done(v, stop) => Next(v, stop - pos)
  }

  /** A field the decoder does not know: `reader.skipType`. */
  function TakeUnknown<T>(acc: T, wireType: nat, b: seq<Byte>, pos: nat): Stepped<T> {
    match Skip(b, pos, wireType)
    case Stuck => Thrown
    case Past(size) => Next(acc, size)
  }

  /** The meaning of a list of fields: each in turn updates the value. */
  function Fold<T>(apply: (T, Field) -> T, acc: T, fs: seq<Field>): T {
    if fs == [] then acc else Fold(apply, apply(acc, fs[0]), fs[1..])
  }

  /** What a stream of fields means to a decoder, if every field is correctly typed. */
  function Meaning<T>(apply: (T, Field) -> T, s: Schema, init: T, fs: seq<Field>): Option<T> {
    if AllTyped(s, fs) then Some(Fold(apply, init, fs)) else None
  }

  /** The fields written by the first n conditional blocks of an encoder, in order. */
  function Blocks(block: nat -> seq<Field>, n: nat): seq<Field>
    decreases n, |block(n)|
  {
    if n == 0 then [] else Blocks(block, n - 1) + block(n)
  }

  /** A decoder step consumes each typed field exactly, and has the given effect. */
  ghost predicate Implements<T(!new)>(step: Step<T>, apply: (T, Field) -> T, s: Schema) {
    forall acc: T, f: Field, b: seq<Byte>, pos: nat ::
      Typed(s, f) && At(b, pos, PayloadBytes(f.payload)) ==>
        step(acc, f.Number(), f.TagType(), b, pos) == Next(apply(acc, f), |PayloadBytes(f.payload)|)
  }

  /**
   The decoding loop computes the meaning of any list of typed fields, wherever the list lies
   in the buffer and whatever surrounds it, and stops exactly at its end.
   */
  lemma {:induction false} LoopFolds<T(!new)>(step: Step<T>, apply: (T, Field) -> T, s: Schema,
                                             b: seq<Byte>, pos: nat, acc: T, fs: seq<Field>)
    requires Implements(step, apply, s)
    requires AllTyped(s, fs)
    requires At(b, pos, FieldsBytes(fs))
    ensures Loop(step, b, pos, pos + |FieldsBytes(fs)|, acc)
         == Done(Fold(apply, acc, fs), pos + |FieldsBytes(fs)|)
    decreases fs
  {
    hide Value32, Value, IsVarint, FieldKind, PayloadBytes, Read32;
    if fs != [] {
      var f := fs[0];
      var n, k := |f.tag|, |PayloadBytes(f.payload)|;
      AtField(b, pos, fs);
      ReadFinds(b, pos, f.tag);
      assert step(acc, f.Number(), f.TagType(), b, pos + n) == Next(apply(acc, f), k);
      LoopFolds(step, apply, s, b, pos + n + k, apply(acc, f), fs[1..]);
    }
  }

  lemma TakeBytesFinds(b: seq<Byte>, pos: nat, f: Field)
    requires WellFormed(f) && WireType(f.payload) == 2 && At(b, pos, PayloadBytes(f.payload))
    ensures TakeBytes(b, pos) == Next(Content(f.payload), |PayloadBytes(f.payload)|)
  {
    match f.payload
    case LenP(len, content) => ReadLenFinds(b, pos, len, content);
    case MessageP(len, fields) => ReadLenFinds(b, pos, len, FieldsBytes(fields));
  }

  lemma TakeMessageFinds<T(!new)>(step: Step<T>, apply: (T, Field) -> T, s: Schema,
                                 b: seq<Byte>, pos: nat, init: T, f: Field)
    requires Implements(step, apply, s)
    requires WellFormed(f) && f.payload.MessageP? && AllTyped(s, f.payload.fields)
    requires At(b, pos, PayloadBytes(f.payload))
    ensures TakeMessage(step, b, pos, init) == Next(Fold(apply, init, f.payload.fields), |PayloadBytes(f.payload)|)
  {
    hide FieldsBytes, AllTyped, Value, IsVarint;
    ReadLenFinds(b, pos, f.payload.len, FieldsBytes(f.payload.fields));
    LoopFolds(step, apply, s, b, pos + |f.payload.len|, init, f.payload.fields);
  }

  lemma {:induction false} FoldConcat<T>(apply: (T, Field) -> T, acc: T, fs: seq<Field>, gs: seq<Field>)
    ensures Fold(apply, acc, fs + gs) == Fold(apply, Fold(apply, acc, fs), gs)
    decreases fs
  {
    if fs == [] {
      assert fs + gs == gs;
    } else {
      assert (fs + gs)[1..] == fs[1..] + gs;
      FoldConcat(apply, apply(acc, fs[0]), fs[1..], gs);
    }
  }

  lemma {:induction false} AllTypedConcat(s: Schema, fs: seq<Field>, gs: seq<Field>)
    ensures AllTyped(s, fs + gs) <==> AllTyped(s, fs) && AllTyped(s, gs)
    decreases fs
  {
    if fs == [] {
      assert fs + gs == gs;
    } else {
      assert (fs + gs)[1..] == fs[1..] + gs;
      AllTypedConcat(s, fs[1..], gs);
    }
  }

  lemma {:induction false} TypedIsWellFormed(s: Schema, fs: seq<Field>)
    requires AllTyped(s, fs)
    ensures AllWellFormed(fs)
    decreases fs
  {
    if fs != [] {
      TypedIsWellFormed(s, fs[1..]);
    }
  }

  // ---------------------------------------------------------------- unknown fields

  /**
   A list without the fields its decoder does not know, at every depth: a nested message is
   stripped too, and its length rewritten.
   */
  function Strip(s: Schema, fs: seq<Field>): seq<Field>
    decreases fs
  {
    if fs == [] then []
    else
      var rest := Strip(s, fs[1..]);
      match FieldKind(s, fs[0].Number())
      case Unknown => rest
      case MessageKind(sub) =>
        if fs[0].payload.MessageP? then
          var inner := Strip(sub, fs[0].payload.fields);
          [Field(fs[0].tag, MessageP(Encode(|FieldsBytes(inner)|), inner))] + rest
        else [fs[0]] + rest
      case _ => [fs[0]] + rest
  }

  /** Fields a message type does not know have no effect on it; nested ones are read stripped. */
  ghost predicate IgnoresUnknown<T(!new)>(apply: (T, Field) -> T, s: Schema) {
    && (forall acc: T, f: Field :: FieldKind(s, f.Number()).Unknown? ==> apply(acc, f) == acc)
    && (forall acc: T, f: Field, g: Field :: SameStripped(s, f, g) ==> apply(acc, f) == apply(acc, g))
  }

  ghost predicate SameStripped(s: Schema, f: Field, g: Field) {
    && f.tag == g.tag
    && f.payload.MessageP? && g.payload.MessageP?
    && FieldKind(s, f.Number()).MessageKind?
    && g.payload.fields == Strip(FieldKind(s, f.Number()).schema, f.payload.fields)
  }

  lemma {:induction false} FoldIgnoresUnknown<T(!new)>(apply: (T, Field) -> T, s: Schema, acc: T, fs: seq<Field>)
    requires IgnoresUnknown(apply, s)
    ensures Fold(apply, acc, Strip(s, fs)) == Fold(apply, acc, fs)
    decreases fs
  {
    if fs != [] {
      var f := fs[0];
      FoldIgnoresUnknown(apply, s, apply(acc, f), fs[1..]);
      var stripped := Strip(s, fs);
      match FieldKind(s, f.Number())
      case Unknown =>
      case MessageKind(sub) =>
        assert stripped[1..] == Strip(s, fs[1..]);
        if f.payload.MessageP? {
          assert SameStripped(s, f, stripped[0]);
        }
      case _ =>
        assert stripped[1..] == Strip(s, fs[1..]);
    }
  }
}
