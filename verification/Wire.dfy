/**
 The wire format of the Protocol Buffers encoding specification, section "Message
 Structure": a grammar of fields, the reader's view of them, and the loop that every
 generated decoder runs.
 */
module Wire {
  import opened Bytes
  import opened Varint

  /**
   What may follow a tag. Varints are kept as spelled on the wire, so the grammar has every
   spelling; `MessageP` is a length-delimited field whose content is itself a list of fields.
   */
  datatype Payload =
    | VarintP(raw: seq<Byte>)
    | I64P(content: seq<Byte>)
    | LenP(len: seq<Byte>, content: seq<Byte>)
    | MessageP(len: seq<Byte>, fields: seq<Field>)
    | GroupP(fields: seq<Field>, endTag: seq<Byte>)
    | I32P(content: seq<Byte>)

  datatype Field = Field(tag: seq<Byte>, payload: Payload) {
    function Number(): nat {
      Value32(tag) / 8
    }

    function TagType(): nat {
      Value32(tag) % 8
    }
  }

  function WireType(p: Payload): (t: nat)
    ensures t < 6 && t != 4
  {
    match p
    case VarintP(_) => 0
    case I64P(_) => 1
    case LenP(_, _) => 2
    case MessageP(_, _) => 2
    case GroupP(_, _) => 3
    case I32P(_) => 5
  }

  function PayloadBytes(p: Payload): seq<Byte>
    decreases p, 1
  {
    match p
    case VarintP(raw) => raw
    case I64P(content) => content
    case LenP(len, content) => len + content
    case MessageP(len, fields) => len + FieldsBytes(fields)
    case GroupP(fields, endTag) => FieldsBytes(fields) + endTag
    case I32P(content) => content
  }

  function FieldsBytes(fs: seq<Field>): seq<Byte>
    decreases fs, 0
  {
    if fs == [] then [] else fs[0].tag + PayloadBytes(fs[0].payload) + FieldsBytes(fs[1..])
  }

  /** The bytes inside a length-delimited payload. */
  function Content(p: Payload): seq<Byte> {
    match p
    case LenP(_, content) => content
    case MessageP(_, fields) => FieldsBytes(fields)
    case _ => []
  }

  predicate WellFormed(f: Field)
    decreases f, 1
  {
    && IsVarint(f.tag)
    && f.TagType() == WireType(f.payload)
    && match f.payload
       case VarintP(raw) => IsVarint(raw)
       case I64P(content) => |content| == 8
       case LenP(len, content) => IsVarint(len) && Value32(len) == |content|
       case MessageP(len, fields) =>
         && IsVarint(len) && Value32(len) == |FieldsBytes(fields)|
         && AllWellFormed(fields)
       case GroupP(fields, endTag) =>
         && IsVarint(endTag) && Value32(endTag) % 8 == 4
         && AllWellFormed(fields)
       case I32P(content) => |content| == 4
  }

  predicate AllWellFormed(fs: seq<Field>)
    decreases fs, 0
  {
    fs == [] || (WellFormed(fs[0]) && AllWellFormed(fs[1..]))
  }

  // ---------------------------------------------------------------- reading

  function Remaining(b: seq<Byte>, pos: nat): nat {
    if pos < |b| then |b| - pos else 0
  }

  /** The bytes taken by a length prefix and its content: the prefix, then both. */
  datatype Extent = Overrun | Fits(prefix: nat, size: nat)

  function ReadLen(b: seq<Byte>, pos: nat): (r: Extent)
    ensures r.Fits? ==> r.prefix <= r.size && pos + r.size <= |b|
  {
    match Read32(b, pos)
    case Short => Overrun
    case Got(len, n) => if pos + n + len <= |b| then Fits(n, n + len) else Overrun
  }

  datatype Skipped = Stuck | Past(size: nat)

  /**
   The bytes that skipping a field of the given wire type passes over. A group (type 3) is
   skipped field by field up to its end tag (type 4).
   */
  function Skip(b: seq<Byte>, pos: nat, wireType: nat): Skipped
    decreases Remaining(b, pos)
  {
    match wireType
    case 0 => (match Read(b, pos) case Short => Stuck case Got(_, n) => Past(n))
    case 1 => if pos + 8 <= |b| then Past(8) else Stuck
    case 2 => (match ReadLen(b, pos) case Overrun => Stuck case Fits(_, n) => Past(n))
    case 3 => (match Read32(b, pos)
               case Short => Stuck
               case Got(tag, n) =>
                 if tag % 8 == 4 then Past(n)
                 else
                   match Skip(b, pos + n, tag % 8)
                   case Stuck => Stuck
                   case Past(k) =>
                     match Skip(b, pos + n + k, 3)
                     case Stuck => Stuck
                     case Past(rest) => Past(n + k + rest))
    case 5 => if pos + 4 <= |b| then Past(4) else Stuck
    case _ => Stuck
  }

  lemma {:induction false} FieldsBytesConcat(fs: seq<Field>, gs: seq<Field>)
    ensures FieldsBytes(fs + gs) == FieldsBytes(fs) + FieldsBytes(gs)
  {
    if fs == [] {
      assert fs + gs == gs;
    } else {
      assert (fs + gs)[1..] == fs[1..] + gs;
      FieldsBytesConcat(fs[1..], gs);
    }
  }

  /** Skipping passes over exactly the payload of a well-formed field, groups included. */
  lemma {:induction false} SkipPasses(b: seq<Byte>, pos: nat, f: Field)
    requires WellFormed(f) && At(b, pos, PayloadBytes(f.payload))
    ensures Skip(b, pos, f.TagType()) == Past(|PayloadBytes(f.payload)|)
    decreases f, 1
  {
    match f.payload
    case VarintP(raw) => ReadFinds(b, pos, raw);
    case LenP(len, content) => ReadLenFinds(b, pos, len, content);
    case MessageP(len, fields) => ReadLenFinds(b, pos, len, FieldsBytes(fields));
    case GroupP(fields, endTag) =>
      AtConcat(b, pos, FieldsBytes(fields), endTag);
      SkipGroupPasses(b, pos, fields, endTag);
    case _ =>
  }

  lemma SkipGroupStep(b: seq<Byte>, pos: nat, tag: seq<Byte>, k: nat, rest: nat)
    requires IsVarint(tag) && At(b, pos, tag) && Value32(tag) % 8 != 4
    requires Skip(b, pos + |tag|, Value32(tag) % 8) == Past(k)
    requires Skip(b, pos + |tag| + k, 3) == Past(rest)
    ensures Skip(b, pos, 3) == Past(|tag| + k + rest)
  {
    ReadFinds(b, pos, tag);
  }

  lemma SkipGroupEnd(b: seq<Byte>, pos: nat, endTag: seq<Byte>)
    requires IsVarint(endTag) && Value32(endTag) % 8 == 4 && At(b, pos, endTag)
    ensures Skip(b, pos, 3) == Past(|endTag|)
  {
    ReadFinds(b, pos, endTag);
  }

  lemma {:induction false} SkipGroupPasses(b: seq<Byte>, pos: nat, fs: seq<Field>, endTag: seq<Byte>)
    requires AllWellFormed(fs)
    requires IsVarint(endTag) && Value32(endTag) % 8 == 4
    requires At(b, pos, FieldsBytes(fs)) && At(b, pos + |FieldsBytes(fs)|, endTag)
    ensures Skip(b, pos, 3) == Past(|FieldsBytes(fs)| + |endTag|)
    decreases fs, 0
  {
    hide Skip, PayloadBytes, At, IsVarint, Value;
    if fs == [] {
      SkipGroupEnd(b, pos, endTag);
    } else {
      hide FieldsBytes;
      var f, n, k := fs[0], |fs[0].tag|, |PayloadBytes(fs[0].payload)|;
      AtField(b, pos, fs);
      SkipPasses(b, pos + n, f);
      SkipGroupPasses(b, pos + n + k, fs[1..], endTag);
      SkipGroupStep(b, pos, f.tag, k, |FieldsBytes(fs[1..])| + |endTag|);
    }
  }

  lemma FieldsBytesCons(fs: seq<Field>)
    requires fs != []
    ensures FieldsBytes(fs) == fs[0].tag + PayloadBytes(fs[0].payload) + FieldsBytes(fs[1..])
  {
  }

  /** Splits a list of fields in a buffer into its first tag, first payload and the rest. */
  lemma AtField(b: seq<Byte>, pos: nat, fs: seq<Field>)
    requires fs != [] && At(b, pos, FieldsBytes(fs))
    ensures var n, k := |fs[0].tag|, |PayloadBytes(fs[0].payload)|;
            && At(b, pos, fs[0].tag)
            && At(b, pos + n, PayloadBytes(fs[0].payload))
            && At(b, pos + n + k, FieldsBytes(fs[1..]))
            && |FieldsBytes(fs)| == n + k + |FieldsBytes(fs[1..])|
  {
    hide FieldsBytes, PayloadBytes, At;
    var body, rest := PayloadBytes(fs[0].payload), FieldsBytes(fs[1..]);
    FieldsBytesCons(fs);
    AtConcat3(b, pos, fs[0].tag, body, rest);
  }

  lemma ReadLenFinds(b: seq<Byte>, pos: nat, len: seq<Byte>, content: seq<Byte>)
    requires IsVarint(len) && Value32(len) == |content|
    requires At(b, pos, len + content)
    ensures ReadLen(b, pos) == Fits(|len|, |len| + |content|)
    ensures Read32(b, pos) == Got(|content|, |len|)
    ensures At(b, pos + |len|, content)
    ensures b[pos + |len|..pos + |len| + |content|] == content
  {
    AtConcat(b, pos, len, content);
    ReadFinds(b, pos, len);
  }

  // ---------------------------------------------------------------- the fields a writer emits

  function VarintField(number: nat, v: nat): Field {
    Field(Encode(number * 8), VarintP(Encode(v)))
  }

  function LenField(number: nat, content: seq<Byte>): Field {
    Field(Encode(number * 8 + 2), LenP(Encode(|content|), content))
  }

  function MessageField(number: nat, fields: seq<Field>): Field {
    Field(Encode(number * 8 + 2), MessageP(Encode(|FieldsBytes(fields)|), fields))
  }

  lemma WrittenTag(number: nat, wireType: nat)
    requires number < 0x2000_0000 && wireType < 8
    ensures var tag := Encode(number * 8 + wireType);
            IsVarint(tag) && Value32(tag) / 8 == number && Value32(tag) % 8 == wireType
  {
    EncodeReads(number * 8 + wireType);
  }

  lemma WrittenVarint(number: nat, v: nat)
    requires number < 0x2000_0000 && v < U64
    ensures WellFormed(VarintField(number, v)) && VarintField(number, v).Number() == number
    ensures Value(Encode(v)) == v
  {
    WrittenTag(number, 0);
    EncodeReads(v);
  }

  lemma WrittenLen(number: nat, content: seq<Byte>)
    requires number < 0x2000_0000 && |content| < U32
    ensures WellFormed(LenField(number, content)) && LenField(number, content).Number() == number
  {
    WrittenTag(number, 2);
    EncodeReads(|content|);
  }

  lemma WrittenMessage(number: nat, fields: seq<Field>)
    requires number < 0x2000_0000 && |FieldsBytes(fields)| < U32
    requires AllWellFormed(fields)
    ensures WellFormed(MessageField(number, fields)) && MessageField(number, fields).Number() == number
  {
    WrittenTag(number, 2);
    EncodeReads(|FieldsBytes(fields)|);
  }
}
