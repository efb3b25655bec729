/**
 The messages of packages/proto: their values, what each decoder does with one field, what a
 field means, and the fields each encoder writes. Strings are kept as their UTF-8 bytes.
 */
module Messages {
  import opened Wrappers
  import opened Bytes
  import opened Varint
  import opened Wire
  import opened Decoding

  type Utf8 = seq<Byte>

  datatype RateLimitProof = RateLimitProof(
    proof: seq<Byte>,
    merkleRoot: seq<Byte>,
    epoch: seq<Byte>,
    shareX: seq<Byte>,
    shareY: seq<Byte>,
    nullifier: seq<Byte>,
    rlnIdentifier: seq<Byte>)

  datatype WakuMessage = WakuMessage(
    payload: seq<Byte>,
    contentTopic: Utf8,
    version: Option<Uint32>,
    timestamp: Option<Int64>,
    meta: Option<seq<Byte>>,
    rateLimitProof: Option<RateLimitProof>,
    ephemeral: Option<bool>)

  datatype TopicOnlyMessage = TopicOnlyMessage(contentTopic: Utf8)

  datatype WakuMessageKeyValue = WakuMessageKeyValue(
    messageHash: Option<seq<Byte>>,
    message: Option<WakuMessage>,
    pubsubTopic: Option<Utf8>)

  datatype StoreQueryResponse = StoreQueryResponse(
    requestId: Utf8,
    statusCode: Option<Uint32>,
    statusDesc: Option<Utf8>,
    messages: seq<WakuMessageKeyValue>,
    paginationCursor: Option<seq<Byte>>)

  const NO_PROOF := RateLimitProof([], [], [], [], [], [], [])
  const NO_MESSAGE := WakuMessage([], [], None, None, None, None, None)
  const NO_TOPIC := TopicOnlyMessage([])
  const NO_KEY_VALUE := WakuMessageKeyValue(None, None, None)
  const NO_RESPONSE := StoreQueryResponse([], None, None, [], None)

  // ---------------------------------------------------------------- RateLimitProof

  function SetProof(p: RateLimitProof, number: nat, v: seq<Byte>): RateLimitProof {
    match number
    case 1 => p.(proof := v)
    case 2 => p.(merkleRoot := v)
    case 3 => p.(epoch := v)
    case 4 => p.(shareX := v)
    case 5 => p.(shareY := v)
    case 6 => p.(nullifier := v)
    case 7 => p.(rlnIdentifier := v)
    case _ => p
  }

  function StepProof(p: RateLimitProof, number: nat, wireType: nat, b: seq<Byte>, pos: nat): Stepped<RateLimitProof> {
    if 1 <= number <= 7 then
      match TakeBytes(b, pos)
      case Thrown => Thrown
      case Next(v, size) => Next(SetProof(p, number, v), size)
    else TakeUnknown(p, wireType, b, pos)
  }

  function ApplyProof(p: RateLimitProof, f: Field): RateLimitProof {
    SetProof(p, f.Number(), Content(f.payload))
  }

  /** The field with a given number, if the encoder writes it; empty values are omitted. */
  function ProofSlot(p: RateLimitProof, number: nat): (fs: seq<Field>)
    ensures |fs| <= 1
  {
    var v := GetProof(p, number);
    if |v| > 0 then [LenField(number, v)] else []
  }

  function GetProof(p: RateLimitProof, number: nat): seq<Byte> {
    match number
    case 1 => p.proof
    case 2 => p.merkleRoot
    case 3 => p.epoch
    case 4 => p.shareX
    case 5 => p.shareY
    case 6 => p.nullifier
    case 7 => p.rlnIdentifier
    case _ => []
  }

  function ProofBlocks(p: RateLimitProof): nat -> seq<Field> {
    (n: nat) => ProofSlot(p, n)
  }

  function ProofFields(p: RateLimitProof): seq<Field> {
    Blocks(ProofBlocks(p), 7)
  }

  // ---------------------------------------------------------------- WakuMessage

  function StepWaku(m: WakuMessage, number: nat, wireType: nat, b: seq<Byte>, pos: nat): Stepped<WakuMessage> {
    match number
    case 1 => (match TakeBytes(b, pos)
               case Thrown => Thrown
               case Next(v, size) => Next(m.(payload := v), size))
    case 2 => (match TakeBytes(b, pos)
               case Thrown => Thrown
               case Next(v, size) => Next(m.(contentTopic := v), size))
    case 3 => (match Read32(b, pos)
               case Short => Thrown
               case Got(v, size) => Next(m.(version := Some(v)), size))
    case 10 => (match Read(b, pos)
                case Short => Thrown
                case Got(v, size) => Next(m.(timestamp := Some(UnZigZag(v))), size))
    case 11 => (match TakeBytes(b, pos)
                case Thrown => Thrown
                case Next(v, size) => Next(m.(meta := Some(v)), size))
    case 21 => (match TakeMessage(StepProof, b, pos, NO_PROOF)
                case Thrown => Thrown
                case Next(p, size) => Next(m.(rateLimitProof := Some(p)), size))
    case 31 => (match Read(b, pos)
                case Short => Thrown
                case Got(v, size) => Next(m.(ephemeral := Some(v != 0)), size))
    case _ => TakeUnknown(m, wireType, b, pos)
  }

  function ApplyWaku(m: WakuMessage, f: Field): WakuMessage {
    match f.Number()
    case 1 => m.(payload := Content(f.payload))
    case 2 => m.(contentTopic := Content(f.payload))
    case 3 => if f.payload.VarintP? then m.(version := Some(Value32(f.payload.raw))) else m
    case 10 => if f.payload.VarintP? then m.(timestamp := Some(UnZigZag(Value(f.payload.raw)))) else m
    case 11 => m.(meta := Some(Content(f.payload)))
    case 21 =>
      if f.payload.MessageP? then m.(rateLimitProof := Some(Fold(ApplyProof, NO_PROOF, f.payload.fields))) else m
    case 31 => if f.payload.VarintP? then m.(ephemeral := Some(Value(f.payload.raw) != 0)) else m
    case _ => m
  }

  function WakuSlot(m: WakuMessage, block: nat): (fs: seq<Field>)
    ensures |fs| <= 1
  {
    match block
    case 1 => if |m.payload| > 0 then [LenField(1, m.payload)] else []
    case 2 => if |m.contentTopic| > 0 then [LenField(2, m.contentTopic)] else []
    case 3 => if m.version.Some? then [VarintField(3, m.version.value)] else []
    case 4 => if m.timestamp.Some? then [VarintField(10, ZigZag(m.timestamp.value))] else []
    case 5 => if m.meta.Some? then [LenField(11, m.meta.value)] else []
    case 6 => if m.rateLimitProof.Some? then [MessageField(21, ProofFields(m.rateLimitProof.value))] else []
    case 7 => if m.ephemeral.Some? then [VarintField(31, if m.ephemeral.value then 1 else 0)] else []
    case _ => []
  }

  function WakuBlocks(m: WakuMessage): nat -> seq<Field> {
    (n: nat) => WakuSlot(m, n)
  }

  function WakuFields(m: WakuMessage): seq<Field> {
    Blocks(WakuBlocks(m), 7)
  }

  // ---------------------------------------------------------------- TopicOnlyMessage

  function StepTopic(m: TopicOnlyMessage, number: nat, wireType: nat, b: seq<Byte>, pos: nat)
    : Stepped<TopicOnlyMessage>
  {
    match number
    case 2 => (match TakeBytes(b, pos)
               case Thrown => Thrown
               case Next(v, size) => Next(m.(contentTopic := v), size))
    case _ => TakeUnknown(m, wireType, b, pos)
  }

  function ApplyTopic(m: TopicOnlyMessage, f: Field): TopicOnlyMessage {
    if f.Number() == 2 then m.(contentTopic := Content(f.payload)) else m
  }

  // ---------------------------------------------------------------- WakuMessageKeyValue

  function StepKeyValue(m: WakuMessageKeyValue, number: nat, wireType: nat, b: seq<Byte>, pos: nat)
    : Stepped<WakuMessageKeyValue>
  {
    match number
    case 1 => (match TakeBytes(b, pos)
               case Thrown => Thrown
               case Next(v, size) => Next(m.(messageHash := Some(v)), size))
    case 2 => (match TakeMessage(StepWaku, b, pos, NO_MESSAGE)
               case Thrown => Thrown
               case Next(w, size) => Next(m.(message := Some(w)), size))
    case 3 => (match TakeBytes(b, pos)
               case Thrown => Thrown
               case Next(v, size) => Next(m.(pubsubTopic := Some(v)), size))
    case _ => TakeUnknown(m, wireType, b, pos)
  }

  function ApplyKeyValue(m: WakuMessageKeyValue, f: Field): WakuMessageKeyValue {
    match f.Number()
    case 1 => m.(messageHash := Some(Content(f.payload)))
    case 2 => if f.payload.MessageP? then m.(message := Some(Fold(ApplyWaku, NO_MESSAGE, f.payload.fields))) else m
    case 3 => m.(pubsubTopic := Some(Content(f.payload)))
    case _ => m
  }

  function KeyValueSlot(m: WakuMessageKeyValue, block: nat): (fs: seq<Field>)
    ensures |fs| <= 1
  {
    match block
    case 1 => if m.messageHash.Some? then [LenField(1, m.messageHash.value)] else []
    case 2 => if m.message.Some? then [MessageField(2, WakuFields(m.message.value))] else []
    case 3 => if m.pubsubTopic.Some? then [LenField(3, m.pubsubTopic.value)] else []
    case _ => []
  }

  function KeyValueBlocks(m: WakuMessageKeyValue): nat -> seq<Field> {
    (n: nat) => KeyValueSlot(m, n)
  }

  function KeyValueFields(m: WakuMessageKeyValue): seq<Field> {
    Blocks(KeyValueBlocks(m), 3)
  }

  // ---------------------------------------------------------------- StoreQueryResponse

  function StepResponse(m: StoreQueryResponse, number: nat, wireType: nat, b: seq<Byte>, pos: nat)
    : Stepped<StoreQueryResponse>
  {
    match number
    case 1 => (match TakeBytes(b, pos)
               case Thrown => Thrown
               case Next(v, size) => Next(m.(requestId := v), size))
    case 10 => (match Read32(b, pos)
                case Short => Thrown
                case Got(v, size) => Next(m.(statusCode := Some(v)), size))
    case 11 => (match TakeBytes(b, pos)
                case Thrown => Thrown
                case Next(v, size) => Next(m.(statusDesc := Some(v)), size))
    case 20 => (match TakeMessage(StepKeyValue, b, pos, NO_KEY_VALUE)
                case Thrown => Thrown
                case Next(kv, size) => Next(m.(messages := m.messages + [kv]), size))
    case 51 => (match TakeBytes(b, pos)
                case Thrown => Thrown
                case Next(v, size) => Next(m.(paginationCursor := Some(v)), size))
    case _ => TakeUnknown(m, wireType, b, pos)
  }

  function ApplyResponse(m: StoreQueryResponse, f: Field): StoreQueryResponse {
    match f.Number()
    case 1 => m.(requestId := Content(f.payload))
    case 10 => if f.payload.VarintP? then m.(statusCode := Some(Value32(f.payload.raw))) else m
    case 11 => m.(statusDesc := Some(Content(f.payload)))
    case 20 =>
      if f.payload.MessageP? then
        m.(messages := m.messages + [Fold(ApplyKeyValue, NO_KEY_VALUE, f.payload.fields)])
      else m
    case 51 => m.(paginationCursor := Some(Content(f.payload)))
    case _ => m
  }

  /** The encoder writes one field for each message of the list. */
  function ListBlocks(kvs: seq<WakuMessageKeyValue>): nat -> seq<Field> {
    (n: nat) => if 1 <= n <= |kvs| then [MessageField(20, KeyValueFields(kvs[n - 1]))] else []
  }

  function ListFields(kvs: seq<WakuMessageKeyValue>): seq<Field> {
    Blocks(ListBlocks(kvs), |kvs|)
  }

  function ResponseSlot(m: StoreQueryResponse, block: nat): seq<Field> {
    match block
    case 1 => if |m.requestId| > 0 then [LenField(1, m.requestId)] else []
    case 2 => if m.statusCode.Some? then [VarintField(10, m.statusCode.value)] else []
    case 3 => if m.statusDesc.Some? then [LenField(11, m.statusDesc.value)] else []
    case 4 => ListFields(m.messages)
    case 5 => if m.paginationCursor.Some? then [LenField(51, m.paginationCursor.value)] else []
    case _ => []
  }

  function ResponseBlocks(m: StoreQueryResponse): nat -> seq<Field> {
    (n: nat) => ResponseSlot(m, n)
  }

  function ResponseFields(m: StoreQueryResponse): seq<Field> {
    Blocks(ResponseBlocks(m), 5)
  }

  // ---------------------------------------------------------------- whole buffers

  function DecodeWaku(b: seq<Byte>): Option<WakuMessage> {
    match Loop(StepWaku, b, 0, |b|, NO_MESSAGE)
    case Failed => None
    case Done(m, _) => Some(m)
  }

  function DecodeTopic(b: seq<Byte>): Option<TopicOnlyMessage> {
    match Loop(StepTopic, b, 0, |b|, NO_TOPIC)
    case Failed => None
    case Done(m, _) => Some(m)
  }

  function DecodeResponse(b: seq<Byte>): Option<StoreQueryResponse> {
    match Loop(StepResponse, b, 0, |b|, NO_RESPONSE)
    case Failed => None
    case Done(m, _) => Some(m)
  }

  function EncodeWaku(m: WakuMessage): seq<Byte> {
    FieldsBytes(WakuFields(m))
  }

  function EncodeResponse(m: StoreQueryResponse): seq<Byte> {
    FieldsBytes(ResponseFields(m))
  }
}
