/**
 The observers of a relay node, packages/relay/src/relay.ts, with the message validator beside
 it. An observer is an object of its own: it is identified by the subscribe call that made it
 and its place in that call.
 */
module RelayObservers {
  import opened Wrappers
  import opened Bytes
  import opened Varint
  import opened Wire
  import opened Decoding
  import opened Messages
  import opened Codecs
  import opened RoundTrips

  type PubsubTopic = string
  type ContentTopic = Utf8

  datatype Decoder = Decoder(pubsubTopic: PubsubTopic, contentTopic: ContentTopic)

  datatype Observer = Observer(call: nat, index: nat, decoder: Decoder, callback: nat)

  type ByContentTopic = map<ContentTopic, set<Observer>>
  type Observers = map<PubsubTopic, ByContentTopic>

  /** What the function returned by a subscribe call keeps, to undo it. */
  type Handle = seq<(PubsubTopic, Observer)>

  // ---------------------------------------------------------------- the nested map, step by step

  function PushOrInit(ctObs: ByContentTopic, ct: ContentTopic, o: Observer): ByContentTopic {
    ctObs[ct := (if ct in ctObs then ctObs[ct] else {}) + {o}]
  }

  function Add(observers: Observers, o: Observer): Observers {
    var p := o.decoder.pubsubTopic;
    observers[p := PushOrInit(if p in observers then observers[p] else map[], o.decoder.contentTopic, o)]
  }

  function Drop(observers: Observers, p: PubsubTopic, o: Observer): Observers {
    var ct := o.decoder.contentTopic;
    if p !in observers || ct !in observers[p] then observers
    else observers[p := observers[p][ct := observers[p][ct] - {o}]]
  }

  function HandleOf(call: nat, decoders: seq<Decoder>, callback: nat): (h: Handle)
    ensures |h| == |decoders|
    ensures forall i :: 0 <= i < |h| ==> h[i] == (decoders[i].pubsubTopic, Observer(call, i, decoders[i], callback))
  {
    if decoders == [] then []
    else
      var n := |decoders| - 1;
      HandleOf(call, decoders[..n], callback) + [(decoders[n].pubsubTopic, Observer(call, n, decoders[n], callback))]
  }

  function AddAll(observers: Observers, h: Handle): Observers {
    if h == [] then observers else Add(AddAll(observers, h[..|h| - 1]), h[|h| - 1].1)
  }

  function DropAll(observers: Observers, h: Handle): Observers {
    if h == [] then observers else Drop(DropAll(observers, h[..|h| - 1]), h[|h| - 1].0, h[|h| - 1].1)
  }

  /** The observers found under two topics. */
  function Lookup(observers: Observers, p: PubsubTopic, ct: ContentTopic): set<Observer> {
    if p in observers && ct in observers[p] then observers[p][ct] else {}
  }

  /** The observers that an incoming message is given to. */
  function Reached(observers: Observers, p: PubsubTopic, bytes: seq<Byte>): set<Observer> {
    match DecodeTopic(bytes)
    case None => {}
    case Some(m) => if m.contentTopic == [] then {} else Lookup(observers, p, m.contentTopic)
  }

  class Relay {
    var observers: Observers

    constructor ()
      ensures observers == map[]
    {
      observers := map[];
    }

    method SubscribeWithUnsubscribe(call: nat, decoders: seq<Decoder>, callback: nat) returns (handle: Handle)
      modifies this
      ensures handle == HandleOf(call, decoders, callback)
      ensures observers == AddAll(old(observers), handle)
    {
      hide HandleOf, AddAll;
      handle := [];
      AddNone(observers, call, callback);
      for i := 0 to |decoders|
        invariant handle == HandleOf(call, decoders[..i], callback)
        invariant observers == AddAll(old(observers), handle)
      {
        var pubsubTopic := decoders[i].pubsubTopic;
        var ctObs := if pubsubTopic in observers then observers[pubsubTopic] else map[];
        var observer := Observer(call, i, decoders[i], callback);
        ctObs := PushOrInitMapSet(ctObs, decoders[i].contentTopic, observer);
        observers := observers[pubsubTopic := ctObs];
        AddOne(old(observers), handle, observer);
        HandleSnoc(call, decoders, callback, i);
        handle := handle + [(pubsubTopic, observer)];
      }
      assert decoders[..|decoders|] == decoders;
    }

    static method PushOrInitMapSet(ctObs: ByContentTopic, key: ContentTopic, observer: Observer)
      returns (pushed: ByContentTopic)
      ensures pushed == PushOrInit(ctObs, key, observer)
    {
      pushed := ctObs;
      if key !in pushed {
        pushed := pushed[key := {}];
      }
      pushed := pushed[key := pushed[key] + {observer}];
    }

    method RemoveObservers(handle: Handle)
      modifies this
      ensures observers == DropAll(old(observers), handle)
    {
      for i := 0 to |handle|
        invariant observers == DropAll(old(observers), handle[..i])
      {
        var (pubsubTopic, observer) := handle[i];
        assert handle[..i + 1][..i] == handle[..i];
        if pubsubTopic !in observers {
          continue;
        }
        var ctObs := observers[pubsubTopic];
        var contentTopic := observer.decoder.contentTopic;
        if contentTopic !in ctObs {
          continue;
        }
        ctObs := ctObs[contentTopic := ctObs[contentTopic] - {observer}];
        observers := observers[pubsubTopic := ctObs];
      }
      assert handle[..|handle|] == handle;
    }

    /** The observers whose decoder and callback are run on the message. */
    method ProcessIncomingMessage(pubsubTopic: PubsubTopic, bytes: seq<Byte>) returns (reached: set<Observer>)
      ensures reached == Reached(observers, pubsubTopic, bytes)
    {
      var topicOnlyMsg := DecodeTopic(bytes);
      if topicOnlyMsg.None? || topicOnlyMsg.value.contentTopic == [] {
        return {};
      }
      if pubsubTopic !in observers {
        return {};
      }
      var contentTopicMap := observers[pubsubTopic];
      if topicOnlyMsg.value.contentTopic !in contentTopicMap {
        return {};
      }
      reached := contentTopicMap[topicOnlyMsg.value.contentTopic];
    }
  }

  // ---------------------------------------------------------------- what one call changes

  lemma AddNone(observers: Observers, call: nat, callback: nat)
    ensures HandleOf(call, [], callback) == [] && AddAll(observers, []) == observers
  {
  }

  lemma AddOne(observers: Observers, h: Handle, o: Observer)
    ensures AddAll(observers, h + [(o.decoder.pubsubTopic, o)]) == Add(AddAll(observers, h), o)
  {
    assert (h + [(o.decoder.pubsubTopic, o)])[..|h|] == h;
  }

  lemma HandleSnoc(call: nat, decoders: seq<Decoder>, callback: nat, i: nat)
    requires i < |decoders|
    ensures HandleOf(call, decoders[..i + 1], callback)
         == HandleOf(call, decoders[..i], callback)
            + [(decoders[i].pubsubTopic, Observer(call, i, decoders[i], callback))]
  {
    assert decoders[..i + 1][..i] == decoders[..i];
  }

  lemma {:induction false} LookupAddAll(observers: Observers, h: Handle, p: PubsubTopic, ct: ContentTopic, o: Observer)
    requires forall i :: 0 <= i < |h| ==> h[i].0 == h[i].1.decoder.pubsubTopic
    ensures o in Lookup(AddAll(observers, h), p, ct)
       <==> o in Lookup(observers, p, ct) || ((p, o) in h && o.decoder.contentTopic == ct)
    decreases |h|
  {
    if h != [] {
      var n := |h| - 1;
      LookupAddAll(observers, h[..n], p, ct, o);
      assert h == h[..n] + [h[n]];
    }
  }

  lemma {:induction false} LookupDropAll(observers: Observers, h: Handle, p: PubsubTopic, ct: ContentTopic, o: Observer)
    ensures o in Lookup(DropAll(observers, h), p, ct)
       <==> o in Lookup(observers, p, ct) && !((p, o) in h && o.decoder.contentTopic == ct)
    decreases |h|
  {
    if h != [] {
      var n := |h| - 1;
      LookupDropAll(observers, h[..n], p, ct, o);
      assert h == h[..n] + [h[n]];
    }
  }

  // ---------------------------------------------------------------- histories

  /** Calls are told apart: each subscribe call returns a function of its own. */
  datatype Event =
    | Subscribe(call: nat, decoders: seq<Decoder>, callback: nat)
    | Unsubscribe(call: nat)

  datatype State = State(observers: Observers, handles: map<nat, Handle>)

  function Next(s: State, e: Event): State {
    match e
    case Subscribe(call, decoders, callback) =>
      var h := HandleOf(call, decoders, callback);
      State(AddAll(s.observers, h), s.handles[call := h])
    case Unsubscribe(call) =>
      if call in s.handles then s.(observers := DropAll(s.observers, s.handles[call])) else s
  }

  function Run(history: seq<Event>): State {
    if history == [] then State(map[], map[])
    else Next(Run(history[..|history| - 1]), history[|history| - 1])
  }

  ghost predicate OwnCalls(history: seq<Event>) {
    forall i, j :: 0 <= i < j < |history| && history[i].Subscribe? && history[j].Subscribe? ==>
      history[i].call != history[j].call
  }

  /** The observer comes from the subscribe call at index i, which has not been undone since. */
  ghost predicate LiveFrom(history: seq<Event>, o: Observer, i: nat) {
    && i < |history| && MadeBy(history[i], o)
    && forall j :: i < j < |history| ==> history[j] != Unsubscribe(o.call)
  }

  ghost predicate Live(history: seq<Event>, o: Observer) {
    exists i :: LiveFrom(history, o, i)
  }

  ghost predicate Registered(history: seq<Event>, p: PubsubTopic, ct: ContentTopic, o: Observer) {
    Live(history, o) && o.decoder == Decoder(p, ct)
  }

  lemma {:induction false} HandlesAreKept(history: seq<Event>, call: nat)
    requires OwnCalls(history)
    ensures call in Run(history).handles
       <==> exists i :: 0 <= i < |history| && history[i].Subscribe? && history[i].call == call
    ensures forall i :: 0 <= i < |history| && history[i].Subscribe? && history[i].call == call ==>
              Run(history).handles[call] == HandleOf(call, history[i].decoders, history[i].callback)
    decreases |history|
  {
    if history != [] {
      HandlesAreKept(history[..|history| - 1], call);
    }
  }

  lemma InHandle(call: nat, decoders: seq<Decoder>, callback: nat, p: PubsubTopic, o: Observer)
    ensures (p, o) in HandleOf(call, decoders, callback)
       <==> MadeBy(Subscribe(call, decoders, callback), o) && p == o.decoder.pubsubTopic
  {
    var h := HandleOf(call, decoders, callback);
    if o.index < |decoders| {
      assert h[o.index] == (decoders[o.index].pubsubTopic, Observer(call, o.index, decoders[o.index], callback));
    }
  }

  /** The observer is one of those that the event makes. */
  predicate MadeBy(e: Event, o: Observer) {
    && e.Subscribe? && o.call == e.call && o.callback == e.callback
    && o.index < |e.decoders| && e.decoders[o.index] == o.decoder
  }

  /** One more event: a subscribe call adds its own observers, an unsubscribe removes its own. */
  lemma LiveStep(before: seq<Event>, e: Event, o: Observer)
    ensures Live(before + [e], o) <==> (Live(before, o) && e != Unsubscribe(o.call)) || MadeBy(e, o)
  {
    var n, history := |before|, before + [e];
    assert history[n] == e && forall j :: 0 <= j < n ==> history[j] == before[j];
    if i: nat :| LiveFrom(history, o, i) && i < n {
      assert LiveFrom(before, o, i);
    }
    if i: nat :| LiveFrom(before, o, i) && e != Unsubscribe(o.call) {
      assert LiveFrom(history, o, i);
    }
    if MadeBy(e, o) {
      assert LiveFrom(history, o, n);
    }
  }

  /**
   After any sequence of subscribes and unsubscribes, repeated ones too, the observers found
   under two topics are exactly the live ones whose decoder has those topics.
   */
  lemma {:induction false} LookupIsLive(history: seq<Event>, p: PubsubTopic, ct: ContentTopic, o: Observer)
    requires OwnCalls(history)
    ensures o in Lookup(Run(history).observers, p, ct) <==> Registered(history, p, ct, o)
    decreases |history|
  {
    if history != [] {
      var n := |history| - 1;
      var before, e := history[..n], history[n];
      LookupIsLive(before, p, ct, o);
      assert history == before + [e];
      LiveStep(before, e, o);
      match e
      case Subscribe(call, decoders, callback) =>
        LookupAddAll(Run(before).observers, HandleOf(call, decoders, callback), p, ct, o);
        InHandle(call, decoders, callback, p, o);
      case Unsubscribe(call) => UnsubscribeRemoves(before, call, p, ct, o);
    }
  }

  lemma UnsubscribeRemoves(before: seq<Event>, call: nat, p: PubsubTopic, ct: ContentTopic, o: Observer)
    requires OwnCalls(before)
    requires o in Lookup(Run(before).observers, p, ct) <==> Registered(before, p, ct, o)
    ensures o in Lookup(Next(Run(before), Unsubscribe(call)).observers, p, ct)
       <==> o in Lookup(Run(before).observers, p, ct) && o.call != call
  {
    HandlesAreKept(before, call);
    var s := Run(before);
    if call in s.handles {
      LookupDropAll(s.observers, s.handles[call], p, ct, o);
      var i :| 0 <= i < |before| && before[i].Subscribe? && before[i].call == call;
      InHandle(call, before[i].decoders, before[i].callback, p, o);
      if o in Lookup(s.observers, p, ct) && o.call == call {
        var k: nat :| LiveFrom(before, o, k);
        assert k == i;
      }
    } else if Registered(before, p, ct, o) {
      var k: nat :| LiveFrom(before, o, k);
      assert before[k].call == o.call;
    }
  }

  /** Undoing a call takes away its own observers and no others, however often it is done. */
  lemma UnsubscribeRemovesOnlyItsOwn(history: seq<Event>, call: nat, times: nat, p: PubsubTopic, ct: ContentTopic)
    requires OwnCalls(history) && times > 0
    ensures Lookup(Run(history + seq(times, i => Unsubscribe(call))).observers, p, ct)
         == set o | o in Lookup(Run(history).observers, p, ct) && o.call != call
  {
    var after := history + seq(times, i => Unsubscribe(call));
    forall o
      ensures o in Lookup(Run(after).observers, p, ct)
         <==> o in Lookup(Run(history).observers, p, ct) && o.call != call
    {
      LookupIsLive(after, p, ct, o);
      LookupIsLive(history, p, ct, o);
      LiveThroughUnsubscribes(history, call, times, o);
    }
  }

  lemma LiveThroughUnsubscribes(history: seq<Event>, call: nat, times: nat, o: Observer)
    requires times > 0
    ensures Live(history + seq(times, i => Unsubscribe(call)), o) <==> Live(history, o) && o.call != call
  {
    var after := history + seq(times, i => Unsubscribe(call));
    assert after[|history|] == Unsubscribe(call);
    assert forall j :: 0 <= j < |history| ==> after[j] == history[j];
    if i: nat :| LiveFrom(after, o, i) {
      assert LiveFrom(history, o, i);
    }
    if i: nat :| LiveFrom(history, o, i) && o.call != call {
      assert LiveFrom(after, o, i);
    }
  }

  // ---------------------------------------------------------------- messages

  /**
   From wire to callback: a message made of correctly typed fields reaches exactly the live
   observers of its pubsub topic and of the content topic the full decoder sees, and none if
   that is empty.
   */
  lemma StreamReachesLive(history: seq<Event>, p: PubsubTopic, fs: seq<Field>, o: Observer)
    requires OwnCalls(history) && AllTyped(WakuSchema, fs)
    ensures DecodeWaku(FieldsBytes(fs)).Some?
    ensures var ct := DecodeWaku(FieldsBytes(fs)).value.contentTopic;
            o in Reached(Run(history).observers, p, FieldsBytes(fs)) <==> ct != [] && Registered(history, p, ct, o)
  {
    TopicOnlyAgrees(fs);
    LookupIsLive(history, p, DecodeWaku(FieldsBytes(fs)).value.contentTopic, o);
  }

  /** The gossip validator lets through messages with a content topic and a payload. */
  predicate Validates(bytes: seq<Byte>) {
    match DecodeWaku(bytes)
    case None => false
    case Some(m) => m.contentTopic != [] && m.payload != []
  }

  /**
   From sender to callback: an encoded message is let through exactly when it has a content topic
   and a payload, and reaches the live observers of its own topic.
   */
  lemma EncodedIsDelivered(history: seq<Event>, p: PubsubTopic, m: WakuMessage, o: Observer)
    requires OwnCalls(history) && |EncodeWaku(m)| < U32
    ensures Validates(EncodeWaku(m)) <==> m.contentTopic != [] && m.payload != []
    ensures o in Reached(Run(history).observers, p, EncodeWaku(m))
       <==> m.contentTopic != [] && Registered(history, p, m.contentTopic, o)
  {
    hide DecodeWaku;
    WakuRoundTrip(m);
    WakuWritten(m);
    StreamReachesLive(history, p, WakuFields(m), o);
  }

  /** Whatever the bytes: they reach the live observers of the topic the partial decoder gives. */
  lemma BytesReachLive(history: seq<Event>, p: PubsubTopic, bytes: seq<Byte>, o: Observer)
    requires OwnCalls(history)
    ensures o in Reached(Run(history).observers, p, bytes)
       <==> DecodeTopic(bytes).Some? && DecodeTopic(bytes).value.contentTopic != []
            && Registered(history, p, DecodeTopic(bytes).value.contentTopic, o)
  {
    hide DecodeTopic;
    if DecodeTopic(bytes).Some? {
      LookupIsLive(history, p, DecodeTopic(bytes).value.contentTopic, o);
    }
  }

  /**
   A validated message is given to exactly the live observers of the topic in its full decode,
   if its bytes are framed; messages of correctly typed fields are.
   */
  lemma ValidatedIsDelivered(history: seq<Event>, p: PubsubTopic, bytes: seq<Byte>, o: Observer)
    requires OwnCalls(history) && Validates(bytes) && Framed(bytes, 0)
    ensures o in Reached(Run(history).observers, p, bytes)
       <==> Registered(history, p, DecodeWaku(bytes).value.contentTopic, o)
  {
    hide DecodeTopic, DecodeWaku, Framed;
    FramedAgrees(bytes);
    BytesReachLive(history, p, bytes, o);
  }

  /**
   Framing is needed: the validator lets these bytes through with the content topic "X", and
   they reach the observers of any other topic of 17 bytes and none of "X".
   */
  lemma MisframedIsMisrouted(history: seq<Event>, p: PubsubTopic, content: seq<Byte>, o: Observer)
    requires OwnCalls(history) && |content| == 17
    ensures Validates(Misframed(content)) && DecodeWaku(Misframed(content)).value.contentTopic == [88]
    ensures o in Reached(Run(history).observers, p, Misframed(content)) <==> Registered(history, p, content, o)
    ensures Registered(history, p, [88], o) ==> o !in Reached(Run(history).observers, p, Misframed(content))
  {
    hide DecodeTopic, DecodeWaku, Misframed;
    MisframedProofDisagrees(content);
    BytesReachLive(history, p, Misframed(content), o);
  }

  /** Observers under the empty content topic are never reached, by any bytes at all. */
  lemma EmptyTopicNeverReached(history: seq<Event>, p: PubsubTopic, bytes: seq<Byte>, o: Observer)
    requires OwnCalls(history) && o.decoder.contentTopic == []
    ensures o !in Reached(Run(history).observers, p, bytes)
  {
    var m := DecodeTopic(bytes);
    if m.Some? {
      LookupIsLive(history, p, m.value.contentTopic, o);
    }
  }
}
