/**
 The receiver reliability monitor, packages/sdk/src/reliability_monitor/receiver.ts: which
 messages and ping failures it remembers, and when it renews a peer. Renewing a peer, through
 the network, is represented by its outcome. Calls are handled one at a time.
 */
module ReceiverMonitor {
  import opened Wrappers

  type PeerId = string
  type Hash = string

  /** How an attempt to replace a peer ends. */
  datatype Attempt = NoNewPeer | RenewThrew | SubscribeThrew | LightPushThrew | Renewed(peer: PeerId)

  const DEFAULT_MAX_PINGS: int := 3

  type Failures = map<PeerId, nat>

  /** The failure counts after a call, and whether the call tried to renew the peer. */
  datatype Handled = Handled(failures: Failures, attempted: bool)

  function Forget(failures: Failures, peer: PeerId): Failures {
    map q | q in failures && q != peer :: failures[q]
  }

  function Count(failures: Failures, peer: PeerId): nat {
    if peer in failures then failures[peer] else 0
  }

  /** One ping result: an attempt forgets the failures whatever its outcome, since it never throws. */
  function AfterPing(failures: Failures, limit: int, peer: PeerId, success: bool): Handled {
    if success then Handled(Forget(failures, peer), false)
    else if Count(failures, peer) + 1 >= limit then Handled(Forget(failures, peer), true)
    else Handled(failures[peer := Count(failures, peer) + 1], false)
  }

  // ---------------------------------------------------------------- renewals and their locks

  /** The locks held, and the renewals between their first await and their end, by call. */
  datatype Renewals = Renewals(locks: set<PeerId>, flying: map<nat, PeerId>, calls: nat)

  /**
   A call up to its first await. A call that finds the peer locked returns at once, and the
   `finally` it runs on the way out drops the lock of the other call.
   */
  function Called(r: Renewals, peer: PeerId): Renewals {
    if peer in r.locks then Renewals(r.locks - {peer}, r.flying, r.calls + 1)
    else Renewals(r.locks + {peer}, r.flying[r.calls := peer], r.calls + 1)
  }

  /** A renewal that comes to its end, however it ends. */
  function Ended(r: Renewals, id: nat): Renewals {
    if id in r.flying then Renewals(r.locks - {r.flying[id]}, r.flying - {id}, r.calls) else r
  }

  /** A call whose renewal, if it starts one, ends before anything else happens. */
  function Uninterrupted(r: Renewals, peer: PeerId): Renewals {
    if peer in r.locks then Called(r, peer) else Ended(Called(r, peer), r.calls)
  }

  class ReceiverReliabilityMonitor {
    var receivedMessagesFormPeer: set<string>
    var receivedMessages: set<Hash>
    var verifiedPeers: set<PeerId>
    var peerFailures: Failures
    var maxPingFailures: int
    var peerRenewalLocks: set<PeerId>
    ghost var flying: map<nat, PeerId>
    ghost var calls: nat

    ghost function InFlight(): Renewals
      reads this
    {
      Renewals(peerRenewalLocks, flying, calls)
    }

    constructor ()
      ensures receivedMessages == {} && receivedMessagesFormPeer == {} && verifiedPeers == {}
      ensures peerFailures == map[] && maxPingFailures == DEFAULT_MAX_PINGS
      ensures InFlight() == Renewals({}, map[], 0)
    {
      receivedMessagesFormPeer, receivedMessages, verifiedPeers := {}, {}, {};
      peerFailures, maxPingFailures, peerRenewalLocks := map[], DEFAULT_MAX_PINGS, {};
      flying, calls := map[], 0;
    }

    method SetMaxPingFailures(value: Option<int>)
      modifies this`maxPingFailures
      ensures Watch(peerFailures, maxPingFailures) == Next(Watch(peerFailures, old(maxPingFailures)), SetLimit(value))
    {
      if value.None? {
        return;
      }
      maxPingFailures := value.value;
    }

    /** One ping result, handled to its end before anything else happens. */
    method HandlePingResult(peer: PeerId, success: bool, attempt: Attempt) returns (attempted: bool)
      modifies this`peerFailures, this`peerRenewalLocks, this`flying, this`calls
      ensures Handled(peerFailures, attempted) == AfterPing(old(peerFailures), maxPingFailures, peer, success)
      ensures InFlight() == if attempted then Uninterrupted(old(InFlight()), peer) else old(InFlight())
    {
      if success {
        peerFailures := Forget(peerFailures, peer);
        return false;
      }
      var failures := Count(peerFailures, peer) + 1;
      peerFailures := peerFailures[peer := failures];
      attempted := failures >= maxPingFailures;
      if attempted {
        var _ := RenewAndSubscribePeer(peer, attempt);
        peerFailures := Forget(peerFailures, peer);
      }
    }

    /** renewAndSubscribePeer up to its first await; `goesOn` tells that it gets there. */
    method StartRenewal(peer: PeerId) returns (goesOn: bool, ghost id: nat)
      modifies this`peerRenewalLocks, this`flying, this`calls
      ensures InFlight() == Called(old(InFlight()), peer)
      ensures goesOn == (peer !in old(peerRenewalLocks)) && id == old(calls)
    {
      id := calls;
      calls := calls + 1;
      goesOn := peer !in peerRenewalLocks;
      if goesOn {
        peerRenewalLocks := peerRenewalLocks + {peer};
        flying := flying[id := peer];
      } else {
        peerRenewalLocks := peerRenewalLocks - {peer};
      }
    }

    /** renewAndSubscribePeer from its first await to its end. */
    method FinishRenewal(peer: PeerId, attempt: Attempt, ghost id: nat) returns (newPeer: Option<PeerId>)
      requires id in flying && flying[id] == peer
      modifies this`peerFailures, this`peerRenewalLocks, this`flying
      ensures InFlight() == Ended(old(InFlight()), id)
      ensures newPeer == if attempt.Renewed? then Some(attempt.peer) else None
      ensures peerFailures == if newPeer.Some? then Forget(old(peerFailures), peer) else old(peerFailures)
    {
      newPeer := None;
      if attempt.Renewed? {
        peerFailures := Forget(peerFailures, peer);
        newPeer := Some(attempt.peer);
      }
      peerRenewalLocks := peerRenewalLocks - {peer};
      flying := flying - {id};
    }

    /** A renewal without interruption: nothing else runs while it waits. */
    method RenewAndSubscribePeer(peer: PeerId, attempt: Attempt) returns (newPeer: Option<PeerId>)
      modifies this`peerFailures, this`peerRenewalLocks, this`flying, this`calls
      ensures InFlight() == Uninterrupted(old(InFlight()), peer)
      ensures newPeer == if peer !in old(peerRenewalLocks) && attempt.Renewed? then Some(attempt.peer) else None
      ensures peerFailures == if newPeer.Some? then Forget(old(peerFailures), peer) else old(peerFailures)
    {
      newPeer := None;
      ghost var id: nat;
      var goesOn;
      goesOn, id := StartRenewal(peer);
      if goesOn {
        newPeer := FinishRenewal(peer, attempt, id);
      }
    }

    method NotifyMessageReceived(peer: PeerId, hash: Hash) returns (already: bool)
      modifies this`receivedMessagesFormPeer, this`receivedMessages, this`verifiedPeers
      ensures already == (hash in old(receivedMessages))
      ensures receivedMessages == old(receivedMessages) + {hash}
      ensures verifiedPeers == old(verifiedPeers) + {peer}
      ensures receivedMessagesFormPeer == old(receivedMessagesFormPeer) + {peer + "-" + hash}
    {
      verifiedPeers := verifiedPeers + {peer};
      receivedMessagesFormPeer := receivedMessagesFormPeer + {peer + "-" + hash};
      if hash in receivedMessages {
        return true;
      }
      receivedMessages := receivedMessages + {hash};
      already := false;
    }
  }

  // ---------------------------------------------------------------- two renewals of one peer

  datatype RenewalEvent = Call(peer: PeerId) | End(id: nat)

  function NextRenewals(r: Renewals, e: RenewalEvent): Renewals {
    match e
    case Call(p) => Called(r, p)
    case End(id) => Ended(r, id)
  }

  /** The locks and renewals after the first n events of a history. */
  function RenewalsAt(h: seq<RenewalEvent>, n: nat): Renewals
    requires n <= |h|
  {
    if n == 0 then Renewals({}, map[], 0) else NextRenewals(RenewalsAt(h, n - 1), h[n - 1])
  }

  ghost predicate Flies(h: seq<RenewalEvent>, n: nat, id: nat, peer: PeerId) {
    n <= |h| && id in RenewalsAt(h, n).flying && RenewalsAt(h, n).flying[id] == peer
  }

  /** Two renewals of one peer are in flight at the same time. */
  ghost predicate Overlaps(h: seq<RenewalEvent>) {
    exists n: nat, a: nat, b: nat, p :: a != b && Flies(h, n, a, p) && Flies(h, n, b, p)
  }

  /** Calls j and k for a peer come while the same renewal of that peer is in flight. */
  ghost predicate TwoCallsDuring(h: seq<RenewalEvent>, j: nat, k: nat, id: nat, peer: PeerId) {
    j < k < |h| && h[j] == Call(peer) && h[k] == Call(peer) && Flies(h, j, id, peer) && Flies(h, k, id, peer)
  }

  ghost predicate SeesTwoCalls(h: seq<RenewalEvent>) {
    exists j: nat, k: nat, id: nat, p :: TwoCallsDuring(h, j, k, id, p)
  }

  lemma {:induction false} CallsGrow(h: seq<RenewalEvent>, n: nat, k: nat)
    requires n <= k <= |h|
    ensures RenewalsAt(h, n).calls <= RenewalsAt(h, k).calls
    ensures forall id :: id in RenewalsAt(h, k).flying ==> id < RenewalsAt(h, k).calls
    decreases k
  {
    if k > n {
      CallsGrow(h, n, k - 1);
    } else if k > 0 {
      CallsGrow(h, k - 1, k - 1);
    }
  }

  /** A renewal begun by event n and in flight after event k was in flight all the while. */
  lemma {:induction false} FliesSince(h: seq<RenewalEvent>, n: nat, k: nat, id: nat, peer: PeerId)
    requires n <= k && Flies(h, k, id, peer) && id < RenewalsAt(h, n).calls
    ensures Flies(h, n, id, peer)
    decreases k
  {
    if n < k {
      CallsGrow(h, n, k - 1);
      FliesSince(h, n, k - 1, id, peer);
    }
  }

  /** Once a lock is dropped, the next call for the peer starts a second renewal. */
  lemma {:induction false} NextCallStarts(h: seq<RenewalEvent>, n: nat, k: nat, id: nat, peer: PeerId)
    requires n <= k < |h| && h[k] == Call(peer) && peer !in RenewalsAt(h, n).locks
    requires Flies(h, n, id, peer) && Flies(h, k, id, peer)
    ensures Overlaps(h)
    decreases k - n
  {
    CallsGrow(h, n, n);
    if h[n] == Call(peer) {
      var second := RenewalsAt(h, n).calls;
      assert Flies(h, n + 1, id, peer) && Flies(h, n + 1, second, peer);
    } else {
      CallsGrow(h, n, n + 1);
      FliesSince(h, n + 1, k, id, peer);
      NextCallStarts(h, n + 1, k, id, peer);
    }
  }

  /** Alone in flight, and either its lock is still held or a call has come while it flew. */
  ghost predicate Guarded(h: seq<RenewalEvent>, n: nat, id: nat, peer: PeerId)
    requires n <= |h|
  {
    && (forall b: nat :: Flies(h, n, b, peer) ==> b == id)
    && (peer in RenewalsAt(h, n).locks || exists j: nat :: CalledDuring(h, n, j, id, peer))
  }

  /** Before event n a call for the peer came while the renewal was in flight. */
  ghost predicate CalledDuring(h: seq<RenewalEvent>, n: nat, j: nat, id: nat, peer: PeerId) {
    j < n <= |h| && h[j] == Call(peer) && Flies(h, j, id, peer)
  }

  lemma {:induction false} GuardKept(h: seq<RenewalEvent>, n: nat, id: nat, peer: PeerId)
    requires n <= |h| && !SeesTwoCalls(h) && Flies(h, n, id, peer)
    ensures Guarded(h, n, id, peer)
    decreases n
  {
    assert n > 0;
    CallsGrow(h, n - 1, n - 1);
    hide SeesTwoCalls, Guarded, TwoCallsDuring;
    if Flies(h, n - 1, id, peer) {
      GuardKept(h, n - 1, id, peer);
      OldGuard(h, n, id, peer);
    } else {
      forall b: nat | Flies(h, n, b, peer)
        ensures b == id
      {
        if b != id {
          GuardKept(h, n - 1, b, peer);
          NoSecondCall(h, n, b, peer);
        }
      }
      NewGuard(h, n, id, peer);
    }
  }

  /** A call that finds a renewal unlocked comes second. */
  lemma NoSecondCall(h: seq<RenewalEvent>, n: nat, id: nat, peer: PeerId)
    requires 0 < n <= |h| && !SeesTwoCalls(h) && Flies(h, n - 1, id, peer) && Guarded(h, n - 1, id, peer)
    ensures h[n - 1] == Call(peer) ==> peer in RenewalsAt(h, n - 1).locks
  {
    if h[n - 1] == Call(peer) && peer !in RenewalsAt(h, n - 1).locks {
      var j: nat :| CalledDuring(h, n - 1, j, id, peer);
      assert TwoCallsDuring(h, j, n - 1, id, peer);
    }
  }

  lemma OldGuard(h: seq<RenewalEvent>, n: nat, id: nat, peer: PeerId)
    requires 0 < n <= |h| && !SeesTwoCalls(h) && Flies(h, n, id, peer)
    requires Flies(h, n - 1, id, peer) && Guarded(h, n - 1, id, peer)
    ensures Guarded(h, n, id, peer)
  {
    NoSecondCall(h, n, id, peer);
    hide SeesTwoCalls;
    forall b: nat | Flies(h, n, b, peer)
      ensures b == id
    {
      assert Flies(h, n - 1, b, peer);
    }
    if peer !in RenewalsAt(h, n).locks {
      if h[n - 1] == Call(peer) {
        assert CalledDuring(h, n, n - 1, id, peer);
      } else {
        assert h[n - 1].End? ==> !Flies(h, n - 1, h[n - 1].id, peer);
        assert peer !in RenewalsAt(h, n - 1).locks;
        var j: nat :| CalledDuring(h, n - 1, j, id, peer);
        assert CalledDuring(h, n, j, id, peer);
      }
    }
  }

  lemma NewGuard(h: seq<RenewalEvent>, n: nat, id: nat, peer: PeerId)
    requires 0 < n <= |h| && Flies(h, n, id, peer) && !Flies(h, n - 1, id, peer)
    requires forall b: nat :: Flies(h, n, b, peer) ==> b == id
    ensures Guarded(h, n, id, peer)
  {
  }

  /**
   Exactly when two renewals of one peer are in flight at once: some renewal in flight sees two
   further calls for its peer. The first drops the lock, the second starts.
   */
  lemma RenewalsOverlapIff(h: seq<RenewalEvent>)
    ensures Overlaps(h) <==> SeesTwoCalls(h)
  {
    if j: nat, k: nat, id: nat, p :| TwoCallsDuring(h, j, k, id, p) {
      CallsGrow(h, j, j);
      CallsGrow(h, j, j + 1);
      FliesSince(h, j + 1, k, id, p);
      if p in RenewalsAt(h, j).locks {
        NextCallStarts(h, j + 1, k, id, p);
      } else {
        NextCallStarts(h, j, k, id, p);
      }
    }
    if Overlaps(h) && !SeesTwoCalls(h) {
      var n: nat, a: nat, b: nat, p :| a != b && Flies(h, n, a, p) && Flies(h, n, b, p);
      GuardKept(h, n, a, p);
    }
  }

  /** A peer stays locked only as long as a renewal of it is in flight. */
  lemma {:induction false} LockedIsInFlight(h: seq<RenewalEvent>, n: nat, peer: PeerId)
    requires n <= |h| && peer in RenewalsAt(h, n).locks
    ensures exists id: nat :: Flies(h, n, id, peer)
  {
    if n > 0 && peer in RenewalsAt(h, n - 1).locks {
      LockedIsInFlight(h, n - 1, peer);
      var id: nat :| Flies(h, n - 1, id, peer);
      CallsGrow(h, n - 1, n - 1);
      assert Flies(h, n, id, peer);
    } else if n > 0 {
      assert Flies(h, n, RenewalsAt(h, n - 1).calls, peer);
    }
  }

  /** Three calls that find the first renewal still waiting are enough. */
  lemma ThreeCallsOverlap(peer: PeerId)
    ensures Overlaps([Call(peer), Call(peer), Call(peer)])
  {
    var h := [Call(peer), Call(peer), Call(peer)];
    var r1, r2 := Renewals({peer}, map[0 := peer], 1), Renewals({}, map[0 := peer], 2);
    assert RenewalsAt(h, 0) == Renewals({}, map[], 0);
    assert RenewalsAt(h, 1) == r1;
    assert RenewalsAt(h, 2) == r2;
    assert TwoCallsDuring(h, 1, 2, 0, peer);
    RenewalsOverlapIff(h);
  }

  // ---------------------------------------------------------------- runs of ping results

  /** A ping result, a renewal that something other than a ping asked for, or a subscribe call. */
  datatype Event =
    | Ping(peer: PeerId, success: bool)
    | OtherRenewal(peer: PeerId, attempt: Attempt)
    | SetLimit(value: Option<int>)

  /** What a ping result depends on. */
  datatype Watch = Watch(failures: Failures, limit: int)

  function Next(s: Watch, e: Event): Watch {
    match e
    case Ping(p, success) => s.(failures := AfterPing(s.failures, s.limit, p, success).failures)
    case OtherRenewal(p, attempt) => if attempt.Renewed? then s.(failures := Forget(s.failures, p)) else s
    case SetLimit(value) => if value.Some? then s.(limit := value.value) else s
  }

  predicate Attempts(s: Watch, e: Event, peer: PeerId) {
    e.Ping? && e.peer == peer && AfterPing(s.failures, s.limit, peer, e.success).attempted
  }

  /** How many of the events make a ping-triggered attempt to renew the peer. */
  function RenewalAttempts(s: Watch, history: seq<Event>, peer: PeerId): nat
    decreases |history|
  {
    if history == [] then 0
    else (if Attempts(s, history[0], peer) then 1 else 0) + RenewalAttempts(Next(s, history[0]), history[1..], peer)
  }

  /** What a peer's history comes to: failed pings, each under the limit of its time, and resets. */
  datatype Seen = Failed(limit: nat) | Cleared

  /** A limit below one acts as one: every failure is then an attempt. */
  function EffectiveLimit(limit: int): (m: nat)
    ensures m > 0
  {
    if limit < 1 then 1 else limit
  }

  function View(limit: int, history: seq<Event>, peer: PeerId): (view: seq<Seen>)
    ensures forall i :: 0 <= i < |view| && view[i].Failed? ==> view[i].limit > 0
    decreases |history|
  {
    if history == [] then []
    else
      match history[0]
      case Ping(p, success) =>
        (if p != peer then [] else if success then [Cleared] else [Failed(EffectiveLimit(limit))])
        + View(limit, history[1..], peer)
      case OtherRenewal(p, attempt) =>
        (if p == peer && attempt.Renewed? then [Cleared] else []) + View(limit, history[1..], peer)
      case SetLimit(value) => View(if value.Some? then value.value else limit, history[1..], peer)
  }

  /** How many failures under this limit come first. */
  function Leading(view: seq<Seen>, m: nat): (n: nat)
    ensures n <= |view|
    ensures forall i :: 0 <= i < n ==> view[i] == Failed(m)
    ensures n < |view| ==> view[n] != Failed(m)
  {
    if view == [] || view[0] != Failed(m) then 0 else 1 + Leading(view[1..], m)
  }

  /** The longest stretches of failures under one limit, and the resets between them. */
  datatype Piece = Stretch(limit: nat, length: nat) | Cut

  function Pieces(view: seq<Seen>): seq<Piece>
    decreases |view|
  {
    if view == [] then []
    else
      match view[0]
      case Cleared => [Cut] + Pieces(view[1..])
      case Failed(m) => [Stretch(m, Leading(view, m))] + Pieces(view[Leading(view, m)..])
  }

  /** Division rounded down, and what remains. */
  function Quotient(n: nat, m: nat): nat
    requires m > 0
  {
    n / m
  }

  function Remainder(n: nat, m: nat): nat
    requires m > 0
  {
    n % m
  }

  /** Failures carried into a stretch count for at most one short of its limit. */
  function Carried(c: nat, m: nat): nat
    requires m > 0
  {
    if c < m then c else m - 1
  }

  predicate Limited(pieces: seq<Piece>) {
    forall i :: 0 <= i < |pieces| && pieces[i].Stretch? ==> pieces[i].limit > 0
  }

  /** A stretch makes (carried + length) / limit attempts, and hands on the remainder. */
  function AttemptsOf(c: nat, pieces: seq<Piece>): nat
    requires Limited(pieces)
    decreases |pieces|
  {
    if pieces == [] then 0
    else
      match pieces[0]
      case Cut => AttemptsOf(0, pieces[1..])
      case Stretch(m, n) =>
        Quotient(Carried(c, m) + n, m) + AttemptsOf(Remainder(Carried(c, m) + n, m), pieces[1..])
  }

  /** Attempts seen from one peer: a counter over its own history. */
  function CountedAttempts(c: nat, view: seq<Seen>): nat
    decreases |view|
  {
    if view == [] then 0
    else
      match view[0]
      case Cleared => CountedAttempts(0, view[1..])
      case Failed(m) =>
        if c + 1 >= m then 1 + CountedAttempts(0, view[1..]) else CountedAttempts(c + 1, view[1..])
  }

  /** What one event adds to a peer's view. */
  function SeenIn(s: Watch, e: Event, peer: PeerId): seq<Seen> {
    match e
    case Ping(p, success) =>
      if p != peer then [] else if success then [Cleared] else [Failed(EffectiveLimit(s.limit))]
    case OtherRenewal(p, attempt) => if p == peer && attempt.Renewed? then [Cleared] else []
    case SetLimit(_) => []
  }

  lemma ViewFirst(s: Watch, history: seq<Event>, peer: PeerId)
    requires history != []
    ensures View(s.limit, history, peer)
         == SeenIn(s, history[0], peer) + View(Next(s, history[0]).limit, history[1..], peer)
  {
  }

  lemma EventCounts(s: Watch, e: Event, peer: PeerId, rest: seq<Seen>)
    ensures CountedAttempts(Count(s.failures, peer), SeenIn(s, e, peer) + rest)
         == (if Attempts(s, e, peer) then 1 else 0) + CountedAttempts(Count(Next(s, e).failures, peer), rest)
  {
    var seen := SeenIn(s, e, peer);
    if seen == [] {
      assert seen + rest == rest;
    } else {
      assert (seen + rest)[1..] == rest && (seen + rest)[0] == seen[0];
    }
  }

  lemma {:induction false} OnlyItsOwnEvents(s: Watch, history: seq<Event>, peer: PeerId)
    ensures RenewalAttempts(s, history, peer) == CountedAttempts(Count(s.failures, peer), View(s.limit, history, peer))
    decreases |history|
  {
    if history != [] {
      var s' := Next(s, history[0]);
      OnlyItsOwnEvents(s', history[1..], peer);
      ViewFirst(s, history, peer);
      EventCounts(s, history[0], peer, View(s'.limit, history[1..], peer));
    }
  }

  lemma QuotientIs(n: nat, m: nat, q: nat, r: nat)
    requires r < m && n == q * m + r
    ensures Quotient(n, m) == q && Remainder(n, m) == r
  {
    var d := n / m - q;
    assert d * m == r - n % m;
    assert d >= 1 ==> d * m >= m;
    assert d <= -1 ==> d * m + m <= 0;
  }

  lemma StepQuotient(n: nat, m: nat)
    requires m > 0
    ensures Quotient(n + m, m) == 1 + Quotient(n, m) && Remainder(n + m, m) == Remainder(n, m)
  {
    var q := n / m;
    assert (q + 1) * m == q * m + m;
    QuotientIs(n + m, m, q + 1, n % m);
  }

  /** The counter over failures under one limit. */
  lemma {:induction false} StretchCounts(c: nat, m: nat, n: nat, view: seq<Seen>)
    requires c < m && n <= |view| && forall i :: 0 <= i < n ==> view[i] == Failed(m)
    ensures CountedAttempts(c, view)
         == Quotient(c + n, m) + CountedAttempts(Remainder(c + n, m), view[n..])
    decreases n
  {
    hide Quotient, Remainder;
    if n == 0 {
      QuotientIs(c, m, 0, c);
      assert view[0..] == view;
    } else {
      assert view[1..][n - 1..] == view[n..];
      if c + 1 >= m {
        StretchCounts(0, m, n - 1, view[1..]);
        StepQuotient(n - 1, m);
      } else {
        StretchCounts(c + 1, m, n - 1, view[1..]);
      }
    }
  }

  /** Failures carried over from a higher limit count like one short of this one. */
  lemma CarriedCounts(c: nat, m: nat, view: seq<Seen>)
    requires m > 0 && view != [] && view[0] == Failed(m)
    ensures CountedAttempts(c, view) == CountedAttempts(Carried(c, m), view)
  {
  }

  lemma {:induction false} PiecesLimited(view: seq<Seen>)
    requires forall i :: 0 <= i < |view| && view[i].Failed? ==> view[i].limit > 0
    ensures Limited(Pieces(view))
    decreases |view|
  {
    if view != [] {
      PiecesLimited(view[1..]);
      if view[0].Failed? {
        PiecesLimited(view[Leading(view, view[0].limit)..]);
      }
    }
  }

  lemma {:induction false} CounterByPieces(c: nat, view: seq<Seen>)
    requires forall i :: 0 <= i < |view| && view[i].Failed? ==> view[i].limit > 0
    requires Limited(Pieces(view))
    ensures CountedAttempts(c, view) == AttemptsOf(c, Pieces(view))
    decreases |view|
  {
    hide Quotient, Remainder;
    if view != [] {
      match view[0]
      case Cleared =>
        PiecesLimited(view[1..]);
        CounterByPieces(0, view[1..]);
        assert Pieces(view)[1..] == Pieces(view[1..]);
      case Failed(m) =>
        var n := Leading(view, m);
        PiecesLimited(view[n..]);
        assert Pieces(view)[1..] == Pieces(view[n..]);
        CarriedCounts(c, m, view);
        StretchCounts(Carried(c, m), m, n, view);
        CounterByPieces(Remainder(Carried(c, m) + n, m), view[n..]);
    }
  }

  /**
   Over any history of ping results and renewals of any peers and of limits set by subscribing:
   every longest stretch of a peer's failures under one limit makes as many attempts as the
   limit goes into its length and what it was handed, and hands on what is left over.
   */
  lemma AttemptsByStretches(limit: int, history: seq<Event>, peer: PeerId)
    ensures Limited(Pieces(View(limit, history, peer)))
    ensures RenewalAttempts(Watch(map[], limit), history, peer) == AttemptsOf(0, Pieces(View(limit, history, peer)))
  {
    OnlyItsOwnEvents(Watch(map[], limit), history, peer);
    PiecesLimited(View(limit, history, peer));
    CounterByPieces(0, View(limit, history, peer));
  }

  // ---------------------------------------------------------------- a limit that stays

  /** The lengths of the maximal runs of consecutive failures, in order. */
  function Runs(view: seq<Seen>, m: nat): (runs: seq<nat>)
    ensures forall i :: 0 <= i < |runs| ==> runs[i] > 0
    decreases |view|
  {
    if view == [] then []
    else if view[0] != Failed(m) then Runs(view[1..], m)
    else [Leading(view, m)] + Runs(view[Leading(view, m)..], m)
  }

  function SumOfQuotients(runs: seq<nat>, m: nat): nat
    requires m > 0
  {
    if runs == [] then 0 else Quotient(runs[0], m) + SumOfQuotients(runs[1..], m)
  }

  predicate KeepsLimit(limit: int, history: seq<Event>) {
    forall i :: 0 <= i < |history| && history[i].SetLimit? ==>
      history[i].value == None || history[i].value == Some(limit)
  }

  ghost predicate Uniform(view: seq<Seen>, m: nat) {
    forall i :: 0 <= i < |view| ==> view[i] == Cleared || view[i] == Failed(m)
  }

  lemma {:induction false} OneLimit(limit: int, history: seq<Event>, peer: PeerId)
    requires KeepsLimit(limit, history)
    ensures Uniform(View(limit, history, peer), EffectiveLimit(limit))
  {
    if history != [] {
      OneLimit(limit, history[1..], peer);
    }
  }

  /** Under one limit a run starts at a reset, so nothing is handed from one to the next. */
  lemma {:induction false} CounterByRuns(view: seq<Seen>, m: nat)
    requires m > 0 && Uniform(view, m)
    ensures CountedAttempts(0, view) == SumOfQuotients(Runs(view, m), m)
    decreases |view|
  {
    hide Quotient, Remainder;
    if view != [] {
      var n := Leading(view, m);
      if n == 0 {
        CounterByRuns(view[1..], m);
      } else {
        StretchCounts(0, m, n, view);
        CounterByRuns(view[n..], m);
        assert Runs(view, m)[1..] == Runs(view[n..], m);
        if n < |view| {
          assert view[n..][0] == Cleared;
        }
      }
    }
  }

  /**
   While the limit stays as it is, the attempts to renew a peer are the sum, over its maximal
   runs of consecutive failed pings, of the run length divided by the limit, rounded down.
   */
  lemma AttemptsAreQuotientsOfRuns(limit: int, history: seq<Event>, peer: PeerId)
    requires KeepsLimit(limit, history)
    ensures var m := EffectiveLimit(limit);
            RenewalAttempts(Watch(map[], limit), history, peer)
              == SumOfQuotients(Runs(View(limit, history, peer), m), m)
  {
    OnlyItsOwnEvents(Watch(map[], limit), history, peer);
    OneLimit(limit, history, peer);
    CounterByRuns(View(limit, history, peer), EffectiveLimit(limit));
  }
}
