/**
 The encoders and decoders as they run: a writer whose buffer grows in place, a reader whose
 position advances, and one method per codec. Each is tied to the functions of `Messages`.
 An exception is the result None.
 */
module ProtoIO {
  import opened Wrappers
  import opened Bytes
  import opened Varint
  import opened Wire
  import opened Decoding
  import opened Messages

  class Reader {
    const buf: seq<Byte>
    var pos: nat

    constructor (buf: seq<Byte>)
      ensures this.buf == buf && pos == 0
    {
      this.buf := buf;
      pos := 0;
    }

    method Uint32() returns (r: Option<nat>)
      modifies this
      ensures match Read32(buf, old(pos))
              case Short => r == None
              case Got(v, n) => r == Some(v) && pos == old(pos) + n
    {
      match Read32(buf, pos)
      case Short => r := None;
      case Got(v, n) => r, pos := Some(v), pos + n;
    }

    method Sint64() returns (r: Option<int>)
      modifies this
      ensures match Read(buf, old(pos))
              case Short => r == None
              case Got(v, n) => r == Some(UnZigZag(v)) && pos == old(pos) + n
    {
      match Read(buf, pos)
      case Short => r := None;
      case Got(v, n) => r, pos := Some(UnZigZag(v)), pos + n;
    }

    method Bool() returns (r: Option<bool>)
      modifies this
      ensures match Read(buf, old(pos))
              case Short => r == None
              case Got(v, n) => r == Some(v != 0) && pos == old(pos) + n
    {
      match Read(buf, pos)
      case Short => r := None;
      case Got(v, n) => r, pos := Some(v != 0), pos + n;
    }

    method Bytes() returns (r: Option<seq<Byte>>)
      modifies this
      ensures match TakeBytes(buf, old(pos))
              case Thrown => r == None
              case Next(v, n) => r == Some(v) && pos == old(pos) + n
    {
      var len :- Uint32();
      if pos + len > |buf| {
        return None;
      }
      r, pos := Some(buf[pos..pos + len]), pos + len;
    }

    method SkipType(wireType: nat) returns (r: Option<()>)
      modifies this
      ensures match Skip(buf, old(pos), wireType)
              case Stuck => r == None
              case Past(n) => r == Some(()) && pos == old(pos) + n
    {
      match Skip(buf, pos, wireType)
      case Stuck => r := None;
      case Past(n) => r, pos := Some(()), pos + n;
    }
  }

  class Writer {
    var buf: seq<Byte>
    var stack: seq<seq<Byte>>

    constructor ()
      ensures buf == [] && stack == []
    {
      buf, stack := [], [];
    }

    method Uint32(v: nat)
      modifies this
      ensures buf == old(buf) + Encode(v) && stack == old(stack)
    {
      buf := buf + Encode(v);
    }

    method Bytes(v: seq<Byte>)
      modifies this
      ensures buf == old(buf) + (Encode(|v|) + v) && stack == old(stack)
    {
      buf := buf + (Encode(|v|) + v);
    }

    method Sint64(v: Int64)
      modifies this
      ensures buf == old(buf) + Encode(ZigZag(v)) && stack == old(stack)
    {
      buf := buf + Encode(ZigZag(v));
    }

    method Bool(v: bool)
      modifies this
      ensures buf == old(buf) + Encode(if v then 1 else 0) && stack == old(stack)
    {
      buf := buf + Encode(if v then 1 else 0);
    }

    /** Starts a nested message in a fresh buffer. */
    method Fork()
      modifies this
      ensures buf == [] && stack == old(stack) + [old(buf)]
    {
      buf, stack := [], stack + [buf];
    }

    /** Ends it: the outer buffer gets the length and the bytes of the nested message. */
    method Ldelim()
      requires stack != []
      modifies this
      ensures stack == old(stack)[..|old(stack)| - 1]
      ensures buf == old(stack)[|old(stack)| - 1] + (Encode(|old(buf)|) + old(buf))
    {
      var outer := stack[|stack| - 1];
      stack := stack[..|stack| - 1];
      buf := outer + (Encode(|buf|) + buf);
    }
  }

  // ---------------------------------------------------------------- encoders

  /** What an encoder leaves in the writer: the fields, after their length unless told not to. */
  function Delimited(lengthDelimited: bool, fields: seq<Field>): seq<Byte> {
    if lengthDelimited then Encode(|FieldsBytes(fields)|) + FieldsBytes(fields) else FieldsBytes(fields)
  }

  lemma FieldBytes(f: Field)
    ensures FieldsBytes([f]) == f.tag + PayloadBytes(f.payload)
  {
    assert [f][1..] == [];
  }

  lemma Assoc(a: seq<Byte>, b: seq<Byte>, c: seq<Byte>)
    ensures (a + b) + c == a + (b + c)
  {
  }

  /** The tag and the payload of one more field, written one after the other. */
  lemma Appended(start: seq<Byte>, fs: seq<Field>, f: Field)
    ensures start + FieldsBytes(fs) + f.tag + PayloadBytes(f.payload) == start + FieldsBytes(fs + [f])
  {
    FieldBytes(f);
    FieldsBytesConcat(fs, [f]);
    Assoc(start + FieldsBytes(fs), f.tag, PayloadBytes(f.payload));
    Assoc(start, FieldsBytes(fs), FieldsBytes([f]));
  }

  lemma ListAppended(start: seq<Byte>, fs: seq<Field>, gs: seq<Field>)
    ensures start + FieldsBytes(fs) + FieldsBytes(gs) == start + FieldsBytes(fs + gs)
  {
    FieldsBytesConcat(fs, gs);
    Assoc(start, FieldsBytes(fs), FieldsBytes(gs));
  }

  lemma NoFields()
    ensures FieldsBytes([]) == []
  {
  }

  // The conditional blocks of the encoders: a tag and a value, when there is one. The ghost
  // arguments are the fields written since `start` and the block as `Messages` gives it.

  function NonEmpty(v: seq<Byte>): Option<seq<Byte>> {
    if |v| > 0 then Some(v) else None
  }

  method PutBytes(w: Writer, tag: nat, v: Option<seq<Byte>>,
      ghost start: seq<Byte>, ghost fs: seq<Field>, ghost block: seq<Field>)
    returns (ghost gs: seq<Field>)
    requires tag % 8 == 2 && w.buf == start + FieldsBytes(fs)
    requires block == if v.Some? then [LenField(tag / 8, v.value)] else []
    modifies w
    ensures gs == fs + block && w.buf == start + FieldsBytes(gs) && w.stack == old(w.stack)
  {
    if v.Some? {
      w.Uint32(tag);
      w.Bytes(v.value);
      Appended(start, fs, LenField(tag / 8, v.value));
    } else {
      assert fs + [] == fs;
    }
    gs := fs + block;
  }

  method PutUint32(w: Writer, tag: nat, v: Option<Uint32>,
      ghost start: seq<Byte>, ghost fs: seq<Field>, ghost block: seq<Field>)
    returns (ghost gs: seq<Field>)
    requires tag % 8 == 0 && w.buf == start + FieldsBytes(fs)
    requires block == if v.Some? then [VarintField(tag / 8, v.value)] else []
    modifies w
    ensures gs == fs + block && w.buf == start + FieldsBytes(gs) && w.stack == old(w.stack)
  {
    if v.Some? {
      w.Uint32(tag);
      w.Uint32(v.value);
      Appended(start, fs, VarintField(tag / 8, v.value));
    } else {
      assert fs + [] == fs;
    }
    gs := fs + block;
  }

  method PutSint64(w: Writer, tag: nat, v: Option<Int64>,
      ghost start: seq<Byte>, ghost fs: seq<Field>, ghost block: seq<Field>)
    returns (ghost gs: seq<Field>)
    requires tag % 8 == 0 && w.buf == start + FieldsBytes(fs)
    requires block == if v.Some? then [VarintField(tag / 8, ZigZag(v.value))] else []
    modifies w
    ensures gs == fs + block && w.buf == start + FieldsBytes(gs) && w.stack == old(w.stack)
  {
    if v.Some? {
      w.Uint32(tag);
      w.Sint64(v.value);
      Appended(start, fs, VarintField(tag / 8, ZigZag(v.value)));
    } else {
      assert fs + [] == fs;
    }
    gs := fs + block;
  }

  method PutBool(w: Writer, tag: nat, v: Option<bool>,
      ghost start: seq<Byte>, ghost fs: seq<Field>, ghost block: seq<Field>)
    returns (ghost gs: seq<Field>)
    requires tag % 8 == 0 && w.buf == start + FieldsBytes(fs)
    requires block == if v.Some? then [VarintField(tag / 8, if v.value then 1 else 0)] else []
    modifies w
    ensures gs == fs + block && w.buf == start + FieldsBytes(gs) && w.stack == old(w.stack)
  {
    if v.Some? {
      w.Uint32(tag);
      w.Bool(v.value);
      Appended(start, fs, VarintField(tag / 8, if v.value then 1 else 0));
    } else {
      assert fs + [] == fs;
    }
    gs := fs + block;
  }

  lemma NoBlocks(block: nat -> seq<Field>)
    ensures Blocks(block, 0) == []
  {
  }

  lemma NextBlock(block: nat -> seq<Field>, n: nat)
    requires n > 0
    ensures Blocks(block, n) == Blocks(block, n - 1) + block(n)
  {
  }

  method WriteProofBlocks(obj: RateLimitProof, w: Writer)
    modifies w
    ensures w.buf == old(w.buf) + FieldsBytes(ProofFields(obj)) && w.stack == old(w.stack)
  {
    hide FieldsBytes, Encode, Blocks, Delimited;
    ghost var block, start, fs := ProofBlocks(obj), w.buf, [];
    NoFields();
    NoBlocks(block);
    fs := PutBytes(w, 10, NonEmpty(obj.proof), start, fs, block(1));
    NextBlock(block, 1);
    fs := PutBytes(w, 18, NonEmpty(obj.merkleRoot), start, fs, block(2));
    NextBlock(block, 2);
    fs := PutBytes(w, 26, NonEmpty(obj.epoch), start, fs, block(3));
    NextBlock(block, 3);
    fs := PutBytes(w, 34, NonEmpty(obj.shareX), start, fs, block(4));
    NextBlock(block, 4);
    fs := PutBytes(w, 42, NonEmpty(obj.shareY), start, fs, block(5));
    NextBlock(block, 5);
    fs := PutBytes(w, 50, NonEmpty(obj.nullifier), start, fs, block(6));
    NextBlock(block, 6);
    fs := PutBytes(w, 58, NonEmpty(obj.rlnIdentifier), start, fs, block(7));
    NextBlock(block, 7);
  }

  method EncodeProofMessage(obj: RateLimitProof, w: Writer, lengthDelimited: bool)
    modifies w
    ensures w.buf == old(w.buf) + Delimited(lengthDelimited, ProofFields(obj)) && w.stack == old(w.stack)
  {
    hide Blocks, FieldsBytes, Encode;
    if lengthDelimited {
      w.Fork();
    }
    WriteProofBlocks(obj, w);
    if lengthDelimited {
      w.Ldelim();
    }
  }

  method PutProof(w: Writer, tag: nat, v: Option<RateLimitProof>,
      ghost start: seq<Byte>, ghost fs: seq<Field>, ghost block: seq<Field>)
    returns (ghost gs: seq<Field>)
    requires tag % 8 == 2 && w.buf == start + FieldsBytes(fs)
    requires block == if v.Some? then [MessageField(tag / 8, ProofFields(v.value))] else []
    modifies w
    ensures gs == fs + block && w.buf == start + FieldsBytes(gs) && w.stack == old(w.stack)
  {
    hide Blocks, FieldsBytes, Encode;
    if v.Some? {
      w.Uint32(tag);
      EncodeProofMessage(v.value, w, true);
      Appended(start, fs, MessageField(tag / 8, ProofFields(v.value)));
    } else {
      assert fs + [] == fs;
    }
    gs := fs + block;
  }

  method WriteWakuBlocks(obj: WakuMessage, w: Writer)
    modifies w
    ensures w.buf == old(w.buf) + FieldsBytes(WakuFields(obj)) && w.stack == old(w.stack)
  {
    hide FieldsBytes, Encode, Blocks, Delimited;
    ghost var block, start, fs := WakuBlocks(obj), w.buf, [];
    NoFields();
    NoBlocks(block);
    fs := PutBytes(w, 10, NonEmpty(obj.payload), start, fs, block(1));
    NextBlock(block, 1);
    fs := PutBytes(w, 18, NonEmpty(obj.contentTopic), start, fs, block(2));
    NextBlock(block, 2);
    fs := PutUint32(w, 24, obj.version, start, fs, block(3));
    NextBlock(block, 3);
    fs := PutSint64(w, 80, obj.timestamp, start, fs, block(4));
    NextBlock(block, 4);
    fs := PutBytes(w, 90, obj.meta, start, fs, block(5));
    NextBlock(block, 5);
    fs := PutProof(w, 170, obj.rateLimitProof, start, fs, block(6));
    NextBlock(block, 6);
    fs := PutBool(w, 248, obj.ephemeral, start, fs, block(7));
    NextBlock(block, 7);
  }

  method EncodeWakuMessage(obj: WakuMessage, w: Writer, lengthDelimited: bool)
    modifies w
    ensures w.buf == old(w.buf) + Delimited(lengthDelimited, WakuFields(obj)) && w.stack == old(w.stack)
  {
    hide Blocks, FieldsBytes, Encode;
    if lengthDelimited {
      w.Fork();
    }
    WriteWakuBlocks(obj, w);
    if lengthDelimited {
      w.Ldelim();
    }
  }

  method PutWaku(w: Writer, tag: nat, v: Option<WakuMessage>,
      ghost start: seq<Byte>, ghost fs: seq<Field>, ghost block: seq<Field>)
    returns (ghost gs: seq<Field>)
    requires tag % 8 == 2 && w.buf == start + FieldsBytes(fs)
    requires block == if v.Some? then [MessageField(tag / 8, WakuFields(v.value))] else []
    modifies w
    ensures gs == fs + block && w.buf == start + FieldsBytes(gs) && w.stack == old(w.stack)
  {
    hide Blocks, FieldsBytes, Encode;
    if v.Some? {
      w.Uint32(tag);
      EncodeWakuMessage(v.value, w, true);
      Appended(start, fs, MessageField(tag / 8, WakuFields(v.value)));
    } else {
      assert fs + [] == fs;
    }
    gs := fs + block;
  }

  method WriteKeyValueBlocks(obj: WakuMessageKeyValue, w: Writer)
    modifies w
    ensures w.buf == old(w.buf) + FieldsBytes(KeyValueFields(obj)) && w.stack == old(w.stack)
  {
    hide FieldsBytes, Encode, Blocks, Delimited;
    ghost var block, start, fs := KeyValueBlocks(obj), w.buf, [];
    NoFields();
    NoBlocks(block);
    fs := PutBytes(w, 10, obj.messageHash, start, fs, block(1));
    NextBlock(block, 1);
    fs := PutWaku(w, 18, obj.message, start, fs, block(2));
    NextBlock(block, 2);
    fs := PutBytes(w, 26, obj.pubsubTopic, start, fs, block(3));
    NextBlock(block, 3);
  }

  method EncodeKeyValueMessage(obj: WakuMessageKeyValue, w: Writer, lengthDelimited: bool)
    modifies w
    ensures w.buf == old(w.buf) + Delimited(lengthDelimited, KeyValueFields(obj)) && w.stack == old(w.stack)
  {
    hide Blocks, FieldsBytes, Encode;
    if lengthDelimited {
      w.Fork();
    }
    WriteKeyValueBlocks(obj, w);
    if lengthDelimited {
      w.Ldelim();
    }
  }

  method PutKeyValue(w: Writer, tag: nat, v: Option<WakuMessageKeyValue>,
      ghost start: seq<Byte>, ghost fs: seq<Field>, ghost block: seq<Field>)
    returns (ghost gs: seq<Field>)
    requires tag % 8 == 2 && w.buf == start + FieldsBytes(fs)
    requires block == if v.Some? then [MessageField(tag / 8, KeyValueFields(v.value))] else []
    modifies w
    ensures gs == fs + block && w.buf == start + FieldsBytes(gs) && w.stack == old(w.stack)
  {
    hide Blocks, FieldsBytes, Encode;
    if v.Some? {
      w.Uint32(tag);
      EncodeKeyValueMessage(v.value, w, true);
      Appended(start, fs, MessageField(tag / 8, KeyValueFields(v.value)));
    } else {
      assert fs + [] == fs;
    }
    gs := fs + block;
  }

  method EncodeList(messages: seq<WakuMessageKeyValue>, w: Writer)
    modifies w
    ensures w.buf == old(w.buf) + FieldsBytes(ListFields(messages)) && w.stack == old(w.stack)
  {
    hide FieldsBytes, Encode, KeyValueFields;
    ghost var block, start, fs := ListBlocks(messages), w.buf, [];
    NoFields();
    for i := 0 to |messages|
      invariant w.buf == start + FieldsBytes(fs) && w.stack == old(w.stack)
      invariant fs == Blocks(block, i)
    {
      fs := PutKeyValue(w, 162, Some(messages[i]), start, fs, block(i + 1));
    }
  }

  method WriteResponseBlocks(obj: StoreQueryResponse, w: Writer)
    modifies w
    ensures w.buf == old(w.buf) + FieldsBytes(ResponseFields(obj)) && w.stack == old(w.stack)
  {
    hide FieldsBytes, Encode, Blocks, Delimited;
    ghost var block, start, fs := ResponseBlocks(obj), w.buf, [];
    NoFields();
    NoBlocks(block);
    fs := PutBytes(w, 10, NonEmpty(obj.requestId), start, fs, block(1));
    NextBlock(block, 1);
    fs := PutUint32(w, 80, obj.statusCode, start, fs, block(2));
    NextBlock(block, 2);
    fs := PutBytes(w, 90, obj.statusDesc, start, fs, block(3));
    NextBlock(block, 3);
    ListAppended(start, fs, block(4));
    EncodeList(obj.messages, w);
    fs := fs + block(4);
    NextBlock(block, 4);
    fs := PutBytes(w, 410, obj.paginationCursor, start, fs, block(5));
    NextBlock(block, 5);
  }

  method EncodeResponseMessage(obj: StoreQueryResponse, w: Writer, lengthDelimited: bool)
    modifies w
    ensures w.buf == old(w.buf) + Delimited(lengthDelimited, ResponseFields(obj)) && w.stack == old(w.stack)
  {
    hide Blocks, FieldsBytes, Encode;
    if lengthDelimited {
      w.Fork();
    }
    WriteResponseBlocks(obj, w);
    if lengthDelimited {
      w.Ldelim();
    }
  }

  // ---------------------------------------------------------------- decoders

  method DispatchProof(reader: Reader, obj: RateLimitProof, tag: nat) returns (r: Option<RateLimitProof>)
    modifies reader
    ensures match StepProof(obj, tag / 8, tag % 8, reader.buf, old(reader.pos))
            case Thrown => r == None
            case Next(v, n) => r == Some(v) && reader.pos == old(reader.pos) + n
  {
    match tag / 8
    case 1 =>
      var v :- reader.Bytes();
      r := Some(obj.(proof := v));
    case 2 =>
      var v :- reader.Bytes();
      r := Some(obj.(merkleRoot := v));
    case 3 =>
      var v :- reader.Bytes();
      r := Some(obj.(epoch := v));
    case 4 =>
      var v :- reader.Bytes();
      r := Some(obj.(shareX := v));
    case 5 =>
      var v :- reader.Bytes();
      r := Some(obj.(shareY := v));
    case 6 =>
      var v :- reader.Bytes();
      r := Some(obj.(nullifier := v));
    case 7 =>
      var v :- reader.Bytes();
      r := Some(obj.(rlnIdentifier := v));
    case _ =>
      var _ :- reader.SkipType(tag % 8);
      r := Some(obj);
  }

  method TurnProof(reader: Reader, ghost end: nat, obj: RateLimitProof) returns (r: Option<RateLimitProof>)
    requires reader.pos < end
    modifies reader
    ensures Loop(StepProof, reader.buf, old(reader.pos), end, obj)
         == if r.None? then Failed else Loop(StepProof, reader.buf, reader.pos, end, r.value)
    ensures r.Some? ==> Remaining(reader.buf, reader.pos) < Remaining(reader.buf, old(reader.pos))
  {
    hide StepProof, Read32;
    var tag :- reader.Uint32();
    r := DispatchProof(reader, obj, tag);
  }

  method DecodeProofMessage(reader: Reader, length: Option<nat>) returns (r: Option<RateLimitProof>)
    modifies reader
    ensures var end := if length.None? then |reader.buf| else old(reader.pos) + length.value;
            match Loop(StepProof, reader.buf, old(reader.pos), end, NO_PROOF)
            case Failed => r == None
            case Done(v, stop) => r == Some(v) && reader.pos == stop
  {
    var obj := NO_PROOF;
    var end := if length.None? then |reader.buf| else reader.pos + length.value;
    while reader.pos < end
      invariant Loop(StepProof, reader.buf, reader.pos, end, obj)
             == Loop(StepProof, reader.buf, old(reader.pos), end, NO_PROOF)
      decreases Remaining(reader.buf, reader.pos)
    {
      obj :- TurnProof(reader, end, obj);
    }
    r := Some(obj);
  }

  method DispatchWaku(reader: Reader, obj: WakuMessage, tag: nat) returns (r: Option<WakuMessage>)
    modifies reader
    ensures match StepWaku(obj, tag / 8, tag % 8, reader.buf, old(reader.pos))
            case Thrown => r == None
            case Next(v, n) => r == Some(v) && reader.pos == old(reader.pos) + n
  {
    match tag / 8
    case 1 =>
      var v :- reader.Bytes();
      r := Some(obj.(payload := v));
    case 2 =>
      var v :- reader.Bytes();
      r := Some(obj.(contentTopic := v));
    case 3 =>
      var v :- reader.Uint32();
      r := Some(obj.(version := Some(v)));
    case 10 =>
      var v :- reader.Sint64();
      r := Some(obj.(timestamp := Some(v)));
    case 11 =>
      var v :- reader.Bytes();
      r := Some(obj.(meta := Some(v)));
    case 21 =>
      var v :- NestedProof(reader);
      r := Some(obj.(rateLimitProof := Some(v)));
    case 31 =>
      var v :- reader.Bool();
      r := Some(obj.(ephemeral := Some(v)));
    case _ =>
      var _ :- reader.SkipType(tag % 8);
      r := Some(obj);
  }

  method TurnWaku(reader: Reader, ghost end: nat, obj: WakuMessage) returns (r: Option<WakuMessage>)
    requires reader.pos < end
    modifies reader
    ensures Loop(StepWaku, reader.buf, old(reader.pos), end, obj)
         == if r.None? then Failed else Loop(StepWaku, reader.buf, reader.pos, end, r.value)
    ensures r.Some? ==> Remaining(reader.buf, reader.pos) < Remaining(reader.buf, old(reader.pos))
  {
    hide StepWaku, Read32;
    var tag :- reader.Uint32();
    r := DispatchWaku(reader, obj, tag);
  }

  method DecodeWakuMessage(reader: Reader, length: Option<nat>) returns (r: Option<WakuMessage>)
    modifies reader
    ensures var end := if length.None? then |reader.buf| else old(reader.pos) + length.value;
            match Loop(StepWaku, reader.buf, old(reader.pos), end, NO_MESSAGE)
            case Failed => r == None
            case Done(v, stop) => r == Some(v) && reader.pos == stop
  {
    var obj := NO_MESSAGE;
    var end := if length.None? then |reader.buf| else reader.pos + length.value;
    while reader.pos < end
      invariant Loop(StepWaku, reader.buf, reader.pos, end, obj)
             == Loop(StepWaku, reader.buf, old(reader.pos), end, NO_MESSAGE)
      decreases Remaining(reader.buf, reader.pos)
    {
      obj :- TurnWaku(reader, end, obj);
    }
    r := Some(obj);
  }

  method DispatchTopic(reader: Reader, obj: TopicOnlyMessage, tag: nat) returns (r: Option<TopicOnlyMessage>)
    modifies reader
    ensures match StepTopic(obj, tag / 8, tag % 8, reader.buf, old(reader.pos))
            case Thrown => r == None
            case Next(v, n) => r == Some(v) && reader.pos == old(reader.pos) + n
  {
    match tag / 8
    case 2 =>
      var v :- reader.Bytes();
      r := Some(obj.(contentTopic := v));
    case _ =>
      var _ :- reader.SkipType(tag % 8);
      r := Some(obj);
  }

  method TurnTopic(reader: Reader, ghost end: nat, obj: TopicOnlyMessage) returns (r: Option<TopicOnlyMessage>)
    requires reader.pos < end
    modifies reader
    ensures Loop(StepTopic, reader.buf, old(reader.pos), end, obj)
         == if r.None? then Failed else Loop(StepTopic, reader.buf, reader.pos, end, r.value)
    ensures r.Some? ==> Remaining(reader.buf, reader.pos) < Remaining(reader.buf, old(reader.pos))
  {
    hide StepTopic, Read32;
    var tag :- reader.Uint32();
    r := DispatchTopic(reader, obj, tag);
  }

  method DecodeTopicMessage(reader: Reader, length: Option<nat>) returns (r: Option<TopicOnlyMessage>)
    modifies reader
    ensures var end := if length.None? then |reader.buf| else old(reader.pos) + length.value;
            match Loop(StepTopic, reader.buf, old(reader.pos), end, NO_TOPIC)
            case Failed => r == None
            case Done(v, stop) => r == Some(v) && reader.pos == stop
  {
    var obj := NO_TOPIC;
    var end := if length.None? then |reader.buf| else reader.pos + length.value;
    while reader.pos < end
      invariant Loop(StepTopic, reader.buf, reader.pos, end, obj)
             == Loop(StepTopic, reader.buf, old(reader.pos), end, NO_TOPIC)
      decreases Remaining(reader.buf, reader.pos)
    {
      obj :- TurnTopic(reader, end, obj);
    }
    r := Some(obj);
  }

  method DispatchKeyValue(reader: Reader, obj: WakuMessageKeyValue, tag: nat) returns (r: Option<WakuMessageKeyValue>)
    modifies reader
    ensures match StepKeyValue(obj, tag / 8, tag % 8, reader.buf, old(reader.pos))
            case Thrown => r == None
            case Next(v, n) => r == Some(v) && reader.pos == old(reader.pos) + n
  {
    match tag / 8
    case 1 =>
      var v :- reader.Bytes();
      r := Some(obj.(messageHash := Some(v)));
    case 2 =>
      var v :- NestedWaku(reader);
      r := Some(obj.(message := Some(v)));
    case 3 =>
      var v :- reader.Bytes();
      r := Some(obj.(pubsubTopic := Some(v)));
    case _ =>
      var _ :- reader.SkipType(tag % 8);
      r := Some(obj);
  }

  method TurnKeyValue(reader: Reader, ghost end: nat, obj: WakuMessageKeyValue) returns (r: Option<WakuMessageKeyValue>)
    requires reader.pos < end
    modifies reader
    ensures Loop(StepKeyValue, reader.buf, old(reader.pos), end, obj)
         == if r.None? then Failed else Loop(StepKeyValue, reader.buf, reader.pos, end, r.value)
    ensures r.Some? ==> Remaining(reader.buf, reader.pos) < Remaining(reader.buf, old(reader.pos))
  {
    hide StepKeyValue, Read32;
    var tag :- reader.Uint32();
    r := DispatchKeyValue(reader, obj, tag);
  }

  method DecodeKeyValueMessage(reader: Reader, length: Option<nat>) returns (r: Option<WakuMessageKeyValue>)
    modifies reader
    ensures var end := if length.None? then |reader.buf| else old(reader.pos) + length.value;
            match Loop(StepKeyValue, reader.buf, old(reader.pos), end, NO_KEY_VALUE)
            case Failed => r == None
            case Done(v, stop) => r == Some(v) && reader.pos == stop
  {
    var obj := NO_KEY_VALUE;
    var end := if length.None? then |reader.buf| else reader.pos + length.value;
    while reader.pos < end
      invariant Loop(StepKeyValue, reader.buf, reader.pos, end, obj)
             == Loop(StepKeyValue, reader.buf, old(reader.pos), end, NO_KEY_VALUE)
      decreases Remaining(reader.buf, reader.pos)
    {
      obj :- TurnKeyValue(reader, end, obj);
    }
    r := Some(obj);
  }

  method DispatchResponse(reader: Reader, obj: StoreQueryResponse, tag: nat) returns (r: Option<StoreQueryResponse>)
    modifies reader
    ensures match StepResponse(obj, tag / 8, tag % 8, reader.buf, old(reader.pos))
            case Thrown => r == None
            case Next(v, n) => r == Some(v) && reader.pos == old(reader.pos) + n
  {
    match tag / 8
    case 1 =>
      var v :- reader.Bytes();
      r := Some(obj.(requestId := v));
    case 10 =>
      var v :- reader.Uint32();
      r := Some(obj.(statusCode := Some(v)));
    case 11 =>
      var v :- reader.Bytes();
      r := Some(obj.(statusDesc := Some(v)));
    case 20 =>
      var v :- NestedKeyValue(reader);
      r := Some(obj.(messages := obj.messages + [v]));
    case 51 =>
      var v :- reader.Bytes();
      r := Some(obj.(paginationCursor := Some(v)));
    case _ =>
      var _ :- reader.SkipType(tag % 8);
      r := Some(obj);
  }

  method TurnResponse(reader: Reader, ghost end: nat, obj: StoreQueryResponse) returns (r: Option<StoreQueryResponse>)
    requires reader.pos < end
    modifies reader
    ensures Loop(StepResponse, reader.buf, old(reader.pos), end, obj)
         == if r.None? then Failed else Loop(StepResponse, reader.buf, reader.pos, end, r.value)
    ensures r.Some? ==> Remaining(reader.buf, reader.pos) < Remaining(reader.buf, old(reader.pos))
  {
    hide StepResponse, Read32;
    var tag :- reader.Uint32();
    r := DispatchResponse(reader, obj, tag);
  }

  method DecodeResponseMessage(reader: Reader, length: Option<nat>) returns (r: Option<StoreQueryResponse>)
    modifies reader
    ensures var end := if length.None? then |reader.buf| else old(reader.pos) + length.value;
            match Loop(StepResponse, reader.buf, old(reader.pos), end, NO_RESPONSE)
            case Failed => r == None
            case Done(v, stop) => r == Some(v) && reader.pos == stop
  {
    var obj := NO_RESPONSE;
    var end := if length.None? then |reader.buf| else reader.pos + length.value;
    while reader.pos < end
      invariant Loop(StepResponse, reader.buf, reader.pos, end, obj)
             == Loop(StepResponse, reader.buf, old(reader.pos), end, NO_RESPONSE)
      decreases Remaining(reader.buf, reader.pos)
    {
      obj :- TurnResponse(reader, end, obj);
    }
    r := Some(obj);
  }

  // `codec().decode(reader, reader.uint32())`, once for each nested message type

  method NestedProof(reader: Reader) returns (r: Option<RateLimitProof>)
    modifies reader
    ensures match TakeMessage(StepProof, reader.buf, old(reader.pos), NO_PROOF)
            case Thrown => r == None
            case Next(v, n) => r == Some(v) && reader.pos == old(reader.pos) + n
  {
    var length :- reader.Uint32();
    r := DecodeProofMessage(reader, Some(length));
  }

  method NestedWaku(reader: Reader) returns (r: Option<WakuMessage>)
    modifies reader
    ensures match TakeMessage(StepWaku, reader.buf, old(reader.pos), NO_MESSAGE)
            case Thrown => r == None
            case Next(v, n) => r == Some(v) && reader.pos == old(reader.pos) + n
  {
    var length :- reader.Uint32();
    r := DecodeWakuMessage(reader, Some(length));
  }

  method NestedKeyValue(reader: Reader) returns (r: Option<WakuMessageKeyValue>)
    modifies reader
    ensures match TakeMessage(StepKeyValue, reader.buf, old(reader.pos), NO_KEY_VALUE)
            case Thrown => r == None
            case Next(v, n) => r == Some(v) && reader.pos == old(reader.pos) + n
  {
    var length :- reader.Uint32();
    r := DecodeKeyValueMessage(reader, Some(length));
  }

  // ---------------------------------------------------------------- whole buffers

  method WakuToBytes(obj: WakuMessage) returns (b: seq<Byte>)
    ensures b == EncodeWaku(obj)
  {
    var w := new Writer();
    EncodeWakuMessage(obj, w, false);
    b := w.buf;
  }

  method WakuFromBytes(b: seq<Byte>) returns (r: Option<WakuMessage>)
    ensures r == DecodeWaku(b)
  {
    var reader := new Reader(b);
    r := DecodeWakuMessage(reader, None);
  }

  method TopicFromBytes(b: seq<Byte>) returns (r: Option<TopicOnlyMessage>)
    ensures r == DecodeTopic(b)
  {
    var reader := new Reader(b);
    r := DecodeTopicMessage(reader, None);
  }

  method ResponseToBytes(obj: StoreQueryResponse) returns (b: seq<Byte>)
    ensures b == EncodeResponse(obj)
  {
    var w := new Writer();
    EncodeResponseMessage(obj, w, false);
    b := w.buf;
  }

  method ResponseFromBytes(b: seq<Byte>) returns (r: Option<StoreQueryResponse>)
    ensures r == DecodeResponse(b)
  {
    var reader := new Reader(b);
    r := DecodeResponseMessage(reader, None);
  }
}
