/**
 Filter subscriptions on one pubsub topic, packages/sdk/src/protocols/filter/
 subscription_manager.ts: the callback map and the messages handed to callbacks. Each event is
 a stretch of code that runs without interruption; the network in between is left out.
 */
module FilterDelivery {
  import opened Wrappers
  import opened Messages
  import opened ReceiverMonitor

  type ContentTopic = Utf8
  type Callback = nat

  /** A decoder: its topics, and which decoder it is. */
  datatype Decoder = Decoder(pubsubTopic: string, contentTopic: ContentTopic, id: nat)

  datatype SubscriptionCallback = SubscriptionCallback(decoders: seq<Decoder>, callback: Callback)

  type Callbacks = map<ContentTopic, SubscriptionCallback>

  /** The hash of a message, and whether a decoder accepts it: computed by code that is left out. */
  datatype Outside = Outside(hash: WakuMessage -> Hash, accepts: (Decoder, WakuMessage) -> bool)

  /** A pubsub topic and the content topic that is kept for internal probes. */
  datatype Topics = Topics(pubsubTopic: string, probe: ContentTopic)

  datatype Event =
    | Push(message: WakuMessage, from: PeerId)
    | Subscribed(decoders: seq<Decoder>, callback: Callback)
    | PeerUnsubscribed(contentTopics: seq<ContentTopic>)
    | UnsubscribedAll

  // ---------------------------------------------------------------- the code, step by step

  /** The decoders of one content topic, in order. */
  function Matching(decoders: seq<Decoder>, ct: ContentTopic): (r: seq<Decoder>)
    ensures r != [] <==> exists i :: 0 <= i < |decoders| && decoders[i].contentTopic == ct
  {
    if decoders == [] then []
    else
      var n := |decoders| - 1;
      Matching(decoders[..n], ct) + if decoders[n].contentTopic == ct then [decoders[n]] else []
  }

  /** A subscribe call for another pubsub topic has no effect. */
  predicate Accepted(topics: Topics, decoders: seq<Decoder>) {
    forall i :: 0 <= i < |decoders| ==> decoders[i].pubsubTopic == topics.pubsubTopic
  }

  function SubscribedTopics(decoders: seq<Decoder>): set<ContentTopic> {
    set i | 0 <= i < |decoders| :: decoders[i].contentTopic
  }

  function Without(callbacks: Callbacks, gone: seq<ContentTopic>): Callbacks {
    map ct | ct in callbacks && ct !in gone :: callbacks[ct]
  }

  type Groups = map<ContentTopic, seq<Decoder>>

  /** Decoders by content topic. */
  function Grouped(decoders: seq<Decoder>): Groups {
    map ct | ct in SubscribedTopics(decoders) :: Matching(decoders, ct)
  }

  /** The callback saved for the content topics of some groups. */
  function Saved(callbacks: Callbacks, groups: Groups, done: set<ContentTopic>, callback: Callback): Callbacks
    requires done <= groups.Keys
  {
    callbacks + map ct | ct in done :: SubscriptionCallback(groups[ct], callback)
  }

  function AfterSubscribe(topics: Topics, callbacks: Callbacks, decoders: seq<Decoder>, callback: Callback): Callbacks {
    if !Accepted(topics, decoders) then callbacks
    else Saved(callbacks, Grouped(decoders), SubscribedTopics(decoders) - {topics.probe}, callback)
  }

  datatype State = State(received: set<Hash>, callbacks: Callbacks)

  function After(topics: Topics, outside: Outside, s: State, e: Event): State {
    match e
    case Push(m, _) => s.(received := s.received + {outside.hash(m)})
    case Subscribed(ds, cb) => s.(callbacks := AfterSubscribe(topics, s.callbacks, ds, cb))
    case PeerUnsubscribed(cts) => s.(callbacks := Without(s.callbacks, cts))
    case UnsubscribedAll => s.(callbacks := map[])
  }

  function Run(topics: Topics, outside: Outside, history: seq<Event>): State {
    if history == [] then State({}, map[])
    else After(topics, outside, Run(topics, outside, history[..|history| - 1]), history[|history| - 1])
  }

  /** Some decoder accepts the message: `Promise.any`. */
  predicate Decodes(outside: Outside, decoders: seq<Decoder>, m: WakuMessage) {
    exists i :: 0 <= i < |decoders| && outside.accepts(decoders[i], m)
  }

  /** The callback that a pushed message is handed to, if any. */
  function HandedTo(outside: Outside, s: State, m: WakuMessage): Option<Callback> {
    if outside.hash(m) in s.received then None
    else if m.contentTopic !in s.callbacks || m.contentTopic == [] then None
    else
      var entry := s.callbacks[m.contentTopic];
      if Decodes(outside, entry.decoders, m) then Some(entry.callback) else None
  }

  /** The callback that the event at index i of a history hands its message to. */
  function DeliveredAt(topics: Topics, outside: Outside, history: seq<Event>, i: nat): Option<Callback>
    requires i < |history|
  {
    if history[i].Push? then HandedTo(outside, Run(topics, outside, history[..i]), history[i].message) else None
  }

  class SubscriptionManager {
    const topics: Topics
    const outside: Outside
    const reliabilityMonitor: ReceiverReliabilityMonitor
    var subscriptionCallbacks: Callbacks

    constructor (topics: Topics, outside: Outside)
      ensures fresh(reliabilityMonitor) && this.topics == topics && this.outside == outside
      ensures Value() == State({}, map[])
    {
      this.topics, this.outside := topics, outside;
      subscriptionCallbacks := map[];
      reliabilityMonitor := new ReceiverReliabilityMonitor();
    }

    ghost function Value(): State
      reads this, reliabilityMonitor
    {
      State(reliabilityMonitor.receivedMessages, subscriptionCallbacks)
    }

    static method GroupByContentTopic(decoders: seq<Decoder>) returns (groups: Groups)
      ensures groups == Grouped(decoders)
    {
      hide Grouped, Matching, SubscribedTopics;
      groups := map[];
      GroupedNone();
      for i := 0 to |decoders|
        invariant groups == Grouped(decoders[..i])
      {
        var d := decoders[i];
        var grouped := if d.contentTopic in groups then groups[d.contentTopic] else [];
        groups := groups[d.contentTopic := grouped + [d]];
        GroupSoFar(decoders[..i], d.contentTopic);
        GroupedSnoc(decoders[..i], d);
        assert decoders[..i + 1] == decoders[..i] + [d];
      }
      assert decoders[..|decoders|] == decoders;
    }

    /** The callback is saved for every group but that of the probe topic. */
    method SaveCallbacks(groups: Groups, callback: Callback)
      modifies this`subscriptionCallbacks
      ensures subscriptionCallbacks
           == Saved(old(subscriptionCallbacks), groups, groups.Keys - {topics.probe}, callback)
    {
      hide Saved;
      var left := groups.Keys;
      SavedNone(subscriptionCallbacks, groups, callback);
      ghost var done: set<ContentTopic> := {};
      while left != {}
        invariant left <= groups.Keys && done == groups.Keys - left - {topics.probe}
        invariant subscriptionCallbacks == Saved(old(subscriptionCallbacks), groups, done, callback)
        decreases |left|
      {
        var ct :| ct in left;
        left := left - {ct};
        if ct != topics.probe {
          SavedOne(old(subscriptionCallbacks), groups, done, callback, ct);
          subscriptionCallbacks := subscriptionCallbacks[ct := SubscriptionCallback(groups[ct], callback)];
          done := done + {ct};
        }
      }
      assert done == groups.Keys - {topics.probe};
    }

    /** What a subscribe call leaves behind once its peers have answered. */
    method Subscribe(decoders: seq<Decoder>, callback: Callback)
      modifies this`subscriptionCallbacks
      ensures Value() == After(topics, outside, old(Value()), Subscribed(decoders, callback))
    {
      hide Grouped, Saved, Matching, SubscribedTopics, Decodes;
      for i := 0 to |decoders|
        invariant forall j :: 0 <= j < i ==> decoders[j].pubsubTopic == topics.pubsubTopic
        invariant subscriptionCallbacks == old(subscriptionCallbacks)
      {
        if decoders[i].pubsubTopic != topics.pubsubTopic {
          return;
        }
      }
      var groups := GroupByContentTopic(decoders);
      GroupedKeys(decoders);
      SaveCallbacks(groups, callback);
    }

    /** What an unsubscribe call does when one of its peers has answered. */
    method PeerUnsubscribe(contentTopics: seq<ContentTopic>)
      modifies this
      ensures Value() == After(topics, outside, old(Value()), PeerUnsubscribed(contentTopics))
    {
      for i := 0 to |contentTopics|
        invariant subscriptionCallbacks == Without(old(subscriptionCallbacks), contentTopics[..i])
      {
        subscriptionCallbacks := subscriptionCallbacks - {contentTopics[i]};
      }
      assert contentTopics[..|contentTopics|] == contentTopics;
    }

    method UnsubscribeAll()
      modifies this
      ensures Value() == After(topics, outside, old(Value()), UnsubscribedAll)
    {
      subscriptionCallbacks := map[];
    }

    method ProcessIncomingMessage(message: WakuMessage, from: PeerId) returns (handedTo: Option<Callback>)
      modifies reliabilityMonitor
      ensures Value() == After(topics, outside, old(Value()), Push(message, from))
      ensures handedTo == HandedTo(outside, old(Value()), message)
    {
      var alreadyReceived := reliabilityMonitor.NotifyMessageReceived(from, outside.hash(message));
      if alreadyReceived {
        return None;
      }
      var contentTopic := message.contentTopic;
      if contentTopic !in subscriptionCallbacks {
        return None;
      }
      handedTo := PushMessage(outside, subscriptionCallbacks[contentTopic], message);
    }

    static method PushMessage(outside: Outside, entry: SubscriptionCallback, message: WakuMessage)
      returns (handedTo: Option<Callback>)
      ensures handedTo.Some?
         <==> message.contentTopic != [] && exists d :: d in entry.decoders && outside.accepts(d, message)
      ensures handedTo.Some? ==> handedTo.value == entry.callback
    {
      if message.contentTopic == [] {
        return None;
      }
      for i := 0 to |entry.decoders|
        invariant forall j :: 0 <= j < i ==> !outside.accepts(entry.decoders[j], message)
      {
        if outside.accepts(entry.decoders[i], message) {
          return Some(entry.callback);
        }
      }
      handedTo := None;
    }
  }

  lemma GroupedNone()
    ensures Grouped([]) == map[]
  {
  }

  lemma GroupedKeys(decoders: seq<Decoder>)
    ensures Grouped(decoders).Keys == SubscribedTopics(decoders)
  {
  }

  lemma GroupedSnoc(before: seq<Decoder>, d: Decoder)
    ensures Grouped(before + [d]) == Grouped(before)[d.contentTopic := Matching(before, d.contentTopic) + [d]]
  {
    hide Matching, SubscribedTopics;
    TopicsSnoc(before, d);
    var after := Grouped(before + [d]);
    var updated := Grouped(before)[d.contentTopic := Matching(before, d.contentTopic) + [d]];
    assert after.Keys == updated.Keys;
    forall ct | ct in after
      ensures after[ct] == updated[ct]
    {
      MatchingSnoc(before, d, ct);
      assert Matching(before, ct) + [] == Matching(before, ct);
    }
  }

  lemma MatchingSnoc(before: seq<Decoder>, d: Decoder, ct: ContentTopic)
    ensures Matching(before + [d], ct) == Matching(before, ct) + if d.contentTopic == ct then [d] else []
  {
    assert (before + [d])[..|before|] == before;
  }

  /** What the map holds for a content topic, if anything, is what the decoders so far have for it. */
  lemma GroupSoFar(before: seq<Decoder>, ct: ContentTopic)
    ensures (if ct in Grouped(before) then Grouped(before)[ct] else []) == Matching(before, ct)
  {
    NoneMatch(before, ct);
  }

  lemma NoneMatch(decoders: seq<Decoder>, ct: ContentTopic)
    ensures ct !in SubscribedTopics(decoders) <==> Matching(decoders, ct) == []
  {
  }

  lemma TopicsSnoc(before: seq<Decoder>, d: Decoder)
    ensures SubscribedTopics(before + [d]) == SubscribedTopics(before) + {d.contentTopic}
  {
    var after := before + [d];
    assert after[|before|] == d;
    assert forall j :: 0 <= j < |before| ==> after[j] == before[j];
  }

  lemma SavedNone(callbacks: Callbacks, groups: Groups, callback: Callback)
    ensures Saved(callbacks, groups, {}, callback) == callbacks
  {
  }

  lemma SavedOne(callbacks: Callbacks, groups: Groups, done: set<ContentTopic>, callback: Callback, ct: ContentTopic)
    requires done <= groups.Keys && ct in groups
    ensures Saved(callbacks, groups, done + {ct}, callback)
         == Saved(callbacks, groups, done, callback)[ct := SubscriptionCallback(groups[ct], callback)]
  {
  }

  // ---------------------------------------------------------------- which callback, when

  /**
   A subscribe call replaces the callback of a content topic if all its decoders are for this
   pubsub topic and some of them for the content topic, which is not the one for probes.
   */
  ghost predicate Sets(topics: Topics, e: Event, ct: ContentTopic) {
    && e.Subscribed? && ct != topics.probe
    && (forall d :: d in e.decoders ==> d.pubsubTopic == topics.pubsubTopic)
    && (exists d :: d in e.decoders && d.contentTopic == ct)
  }

  /** An unsubscribe call removes it if it names the content topic, or all of them. */
  predicate Removes(e: Event, ct: ContentTopic) {
    e.UnsubscribedAll? || (e.PeerUnsubscribed? && ct in e.contentTopics)
  }

  /** The entry has the callback of the call, and those of its decoders that are for ct. */
  ghost predicate EntryOf(entry: SubscriptionCallback, e: Event, ct: ContentTopic)
    requires e.Subscribed?
  {
    && entry.callback == e.callback
    && forall d :: d in entry.decoders <==> d in e.decoders && d.contentTopic == ct
  }

  lemma AcceptedIff(topics: Topics, decoders: seq<Decoder>)
    ensures Accepted(topics, decoders) <==> forall d :: d in decoders ==> d.pubsubTopic == topics.pubsubTopic
  {
  }

  lemma {:induction false} InMatching(decoders: seq<Decoder>, ct: ContentTopic, d: Decoder)
    ensures d in Matching(decoders, ct) <==> d in decoders && d.contentTopic == ct
    decreases |decoders|
  {
    if decoders != [] {
      var n := |decoders| - 1;
      InMatching(decoders[..n], ct, d);
      assert decoders == decoders[..n] + [decoders[n]];
    }
  }

  /** A subscribe call with any decoder for another pubsub topic leaves everything as it was. */
  lemma ForeignSubscribeIsIgnored(topics: Topics, outside: Outside, s: State, e: Event, d: Decoder)
    requires e.Subscribed? && d in e.decoders && d.pubsubTopic != topics.pubsubTopic
    ensures After(topics, outside, s, e) == s
  {
    AcceptedIff(topics, e.decoders);
  }

  /** The event at index j registered ct, and nothing has set or removed it since, up to i. */
  ghost predicate RegisteredBy(topics: Topics, history: seq<Event>, i: nat, ct: ContentTopic, j: nat) {
    && j < i <= |history|
    && Sets(topics, history[j], ct)
    && forall k :: j < k < i ==> !Sets(topics, history[k], ct) && !Removes(history[k], ct)
  }

  ghost predicate Registered(topics: Topics, history: seq<Event>, i: nat, ct: ContentTopic) {
    exists j: nat :: RegisteredBy(topics, history, i, ct, j)
  }

  /** The event at index i pushes a message whose hash no earlier event has pushed. */
  ghost predicate FirstArrival(outside: Outside, history: seq<Event>, i: nat) {
    && i < |history| && history[i].Push?
    && forall k :: 0 <= k < i && history[k].Push? ==>
         outside.hash(history[k].message) != outside.hash(history[i].message)
  }

  lemma {:induction false} CallbacksAreLatest(topics: Topics, outside: Outside, history: seq<Event>, i: nat,
                                             ct: ContentTopic)
    requires i <= |history|
    ensures ct in Run(topics, outside, history[..i]).callbacks <==> Registered(topics, history, i, ct)
    ensures forall j: nat :: RegisteredBy(topics, history, i, ct, j) ==>
              EntryOf(Run(topics, outside, history[..i]).callbacks[ct], history[j], ct)
    decreases i
  {
    if i > 0 {
      var n := i - 1;
      CallbacksAreLatest(topics, outside, history, n, ct);
      assert history[..i][..n] == history[..n];
      StepCallbacks(topics, outside, Run(topics, outside, history[..n]), history[n], ct);
      if Sets(topics, history[n], ct) {
        assert RegisteredBy(topics, history, i, ct, n);
      } else if !Removes(history[n], ct) {
        forall j: nat | RegisteredBy(topics, history, n, ct, j)
          ensures RegisteredBy(topics, history, i, ct, j)
        {
        }
        forall j: nat | RegisteredBy(topics, history, i, ct, j)
          ensures RegisteredBy(topics, history, n, ct, j)
        {
        }
      }
    }
  }

  lemma StepCallbacks(topics: Topics, outside: Outside, s: State, e: Event, ct: ContentTopic)
    ensures var after := After(topics, outside, s, e).callbacks;
            if Sets(topics, e, ct) then ct in after && EntryOf(after[ct], e, ct)
            else if Removes(e, ct) then ct !in after
            else (ct in after <==> ct in s.callbacks) && (ct in after ==> after[ct] == s.callbacks[ct])
  {
    if e.Subscribed? {
      AcceptedIff(topics, e.decoders);
      forall d: Decoder
        ensures d in Matching(e.decoders, ct) <==> d in e.decoders && d.contentTopic == ct
      {
        InMatching(e.decoders, ct, d);
      }
      hide Matching, Accepted;
      assert ct in SubscribedTopics(e.decoders) <==> exists d :: d in e.decoders && d.contentTopic == ct;
    }
  }

  lemma {:induction false} ReceivedArePushed(topics: Topics, outside: Outside, history: seq<Event>, i: nat, h: Hash)
    requires i <= |history|
    ensures h in Run(topics, outside, history[..i]).received
       <==> exists k :: 0 <= k < i && history[k].Push? && outside.hash(history[k].message) == h
    decreases i
  {
    if i > 0 {
      ReceivedArePushed(topics, outside, history, i - 1, h);
      assert history[..i][..i - 1] == history[..i - 1];
    }
  }

  lemma DecodesIff(outside: Outside, decoders: seq<Decoder>, m: WakuMessage)
    ensures Decodes(outside, decoders, m) <==> exists d :: d in decoders && outside.accepts(d, m)
  {
  }

  /** The event at index j is the latest subscription for the message pushed at i, and serves it. */
  ghost predicate HandlerOf(topics: Topics, outside: Outside, history: seq<Event>, i: nat, callback: Callback, j: nat)
    requires i < |history| && history[i].Push?
  {
    var m := history[i].message;
    && RegisteredBy(topics, history, i, m.contentTopic, j)
    && history[j].callback == callback
    && exists d :: d in history[j].decoders && d.contentTopic == m.contentTopic && outside.accepts(d, m)
  }

  /**
   Over every history, a push is handed to a callback exactly when it is the first arrival of
   its hash, its content topic is not empty and is registered at that moment, and one of the
   decoders of the latest subscription accepts it; and then to that subscription's callback.
   */
  lemma DeliveredIff(topics: Topics, outside: Outside, history: seq<Event>, i: nat, callback: Callback)
    requires i < |history| && history[i].Push?
    ensures DeliveredAt(topics, outside, history, i) == Some(callback)
       <==> FirstArrival(outside, history, i)
            && history[i].message.contentTopic != []
            && exists j: nat :: HandlerOf(topics, outside, history, i, callback, j)
  {
    var m := history[i].message;
    ReceivedArePushed(topics, outside, history, i, outside.hash(m));
    CallbacksAreLatest(topics, outside, history, i, m.contentTopic);
    hide Run, After, Matching, RegisteredBy, Decodes;
    forall entry: SubscriptionCallback
      ensures Decodes(outside, entry.decoders, m) <==> exists d :: d in entry.decoders && outside.accepts(d, m)
    {
      DecodesIff(outside, entry.decoders, m);
    }
    if DeliveredAt(topics, outside, history, i) == Some(callback) {
      var j: nat :| RegisteredBy(topics, history, i, m.contentTopic, j);
      assert HandlerOf(topics, outside, history, i, callback, j);
    }
  }

  /** A message hash is handed to a callback at most once, whoever pushes it and whatever is subscribed. */
  lemma DeliveredAtMostOnce(topics: Topics, outside: Outside, history: seq<Event>, i: nat, j: nat)
    requires i < j < |history| && history[i].Push? && history[j].Push?
    requires outside.hash(history[i].message) == outside.hash(history[j].message)
    ensures DeliveredAt(topics, outside, history, j) == None
  {
    ReceivedArePushed(topics, outside, history, j, outside.hash(history[j].message));
  }

  /** A message that first arrives unregistered is lost: no later arrival delivers it. */
  lemma UnregisteredIsLost(topics: Topics, outside: Outside, history: seq<Event>, i: nat, j: nat)
    requires i <= j < |history| && history[i].Push? && history[j].Push?
    requires history[i].message == history[j].message
    requires !Registered(topics, history, i, history[i].message.contentTopic)
    ensures DeliveredAt(topics, outside, history, j) == None
  {
    if i < j {
      DeliveredAtMostOnce(topics, outside, history, i, j);
    } else {
      CallbacksAreLatest(topics, outside, history, i, history[i].message.contentTopic);
    }
  }
}
