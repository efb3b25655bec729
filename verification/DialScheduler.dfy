/**
 The dial scheduler of packages/core/src/lib/connection_manager.ts as a transition system. An
 atomic step is the code between two `await`s; what an `await` answers is part of the event.
 Every call of `attemptDial` is a ticket, and a peer popped from the queue keeps its ticket.
 */
module DialScheduler {
  type PeerId = string
  type Ticket = nat

  datatype Options = Options(maxParallelDials: nat, maxDialAttemptsForPeer: nat)

  datatype State = State(
    peers: seq<PeerId>,              // the peer of each ticket
    checking: set<Ticket>,           // awaiting shouldDialPeer for the first time
    rechecking: set<Ticket>,         // awaiting it again, after being popped from the queue
    queue: seq<Ticket>,              // pendingPeerDialQueue
    dialing: map<Ticket, nat>,       // inside dialPeer, with dialAttempt
    ended: set<Ticket>,              // left dialPeer
    refused: set<Ticket>,            // shouldDialPeer answered no, or threw
    active: int,                     // currentActiveParallelDialCount
    attempts: map<PeerId, int>,      // dialAttemptsForPeer
    refusedRechecks: nat,            // history: re-checks that were refused
    dials: seq<nat>)                 // history: libp2p.dial calls made for each ticket

  const INITIAL := State([], {}, {}, [], map[], {}, {}, 0, map[], 0, [])

  datatype Event =
    | Discovered(peer: PeerId)
    | Checked(ticket: Ticket, ok: bool)
    | Dialed(ticket: Ticket, ok: bool)

  predicate Enabled(s: State, e: Event) {
    match e
    case Discovered(_) => true
    case Checked(t, _) => (t in s.checking || t in s.rechecking) && t < |s.peers| && t < |s.dials|
    case Dialed(t, _) => t in s.dialing && t < |s.peers| && t < |s.dials|
  }

  function ProcessDialQueue(o: Options, s: State): State {
    if |s.queue| > 0 && s.active < o.maxParallelDials then
      s.(queue := s.queue[1..], rechecking := s.rechecking + {s.queue[0]})
    else s
  }

  function EndDial(o: Options, s: State, t: Ticket): State {
    ProcessDialQueue(o, s.(active := s.active - 1, dialing := s.dialing - {t}, ended := s.ended + {t}))
  }

  /** The loop test of dialPeer: dial once more, or leave. */
  function TryDial(o: Options, s: State, t: Ticket, attempt: nat): State
    requires t < |s.dials|
  {
    if attempt < o.maxDialAttemptsForPeer then
      s.(dialing := s.dialing[t := attempt], dials := s.dials[t := s.dials[t] + 1])
    else EndDial(o, s, t)
  }

  function Next(o: Options, s: State, e: Event): State
    requires Enabled(s, e)
  {
    match e
    case Discovered(p) =>
      s.(peers := s.peers + [p], dials := s.dials + [0], checking := s.checking + {|s.peers|})
    case Checked(t, ok) =>
      var s1 := s.(checking := s.checking - {t}, rechecking := s.rechecking - {t});
      if !ok then
        s1.(refused := s.refused + {t},
            refusedRechecks := s.refusedRechecks + if t in s.rechecking then 1 else 0)
      else if s.active >= o.maxParallelDials then s1.(queue := s.queue + [t])
      else TryDial(o, s1.(active := s.active + 1), t, 0)
    case Dialed(t, ok) =>
      if ok then EndDial(o, s.(attempts := s.attempts[s.peers[t] := -1]), t)
      else
        var attempt := s.dialing[t] + 1;
        TryDial(o, s.(attempts := s.attempts[s.peers[t] := attempt]), t, attempt)
  }

  /** The state after a history of events; an event that is not enabled does not happen. */
  function Run(o: Options, es: seq<Event>): State {
    if es == [] then INITIAL
    else
      var s := Run(o, es[..|es| - 1]);
      if Enabled(s, es[|es| - 1]) then Next(o, s, es[|es| - 1]) else s
  }

  // ---------------------------------------------------------------- what every run keeps

  /** In how many places a ticket is. */
  function Places(s: State, t: Ticket): nat {
    (if t in s.checking then 1 else 0)
    + (if t in s.rechecking then 1 else 0)
    + (if t in s.queue then 1 else 0)
    + (if t in s.dialing then 1 else 0)
    + (if t in s.ended then 1 else 0)
    + (if t in s.refused then 1 else 0)
  }

  ghost predicate OnePlaceEach(s: State) {
    && |s.dials| == |s.peers|
    && (forall t: Ticket :: Places(s, t) == if t < |s.peers| then 1 else 0)
    && (forall i, j :: 0 <= i < j < |s.queue| ==> s.queue[i] != s.queue[j])
  }

  ghost predicate ActiveCounts(o: Options, s: State) {
    0 <= s.active <= o.maxParallelDials && s.active == |s.dialing|
  }

  /** How often a ticket has been dialed, by where it is. */
  ghost predicate DialsBounded(o: Options, s: State) {
    && |s.dials| == |s.peers|
    && forall t: Ticket | t < |s.peers| ::
         && s.dials[t] <= o.maxDialAttemptsForPeer
         && (t in s.dialing ==> s.dials[t] == s.dialing[t] + 1)
         && (t !in s.dialing && t !in s.ended ==> s.dials[t] == 0)
  }

  /** A waiting peer is always answered for: by a dial, a re-check, or a refused re-check. */
  ghost predicate QueueServed(o: Options, s: State) {
    s.queue != [] ==> s.active + |s.rechecking| + s.refusedRechecks >= o.maxParallelDials
  }

  ghost predicate Inv(o: Options, s: State) {
    OnePlaceEach(s) && ActiveCounts(o, s) && DialsBounded(o, s) && QueueServed(o, s)
  }

  ghost predicate QueueDistinct(s: State) {
    forall i, j :: 0 <= i < j < |s.queue| ==> s.queue[i] != s.queue[j]
  }

  /** Popping the queue moves one ticket from there to the re-checks. */
  lemma PopPlace(o: Options, s: State, u: Ticket)
    requires QueueDistinct(s) && (s.queue != [] ==> s.queue[0] !in s.rechecking)
    ensures Places(ProcessDialQueue(o, s), u) == Places(s, u)
  {
    if s.queue != [] {
      assert s.queue == [s.queue[0]] + s.queue[1..];
    }
  }

  lemma EndDialPlace(o: Options, s: State, t: Ticket, u: Ticket)
    requires QueueDistinct(s) && (s.queue != [] ==> s.queue[0] !in s.rechecking)
    requires t !in s.ended
    ensures Places(EndDial(o, s, t), u) == Places(s, u) + if u == t && t !in s.dialing then 1 else 0
  {
    PopPlace(o, s.(active := s.active - 1, dialing := s.dialing - {t}, ended := s.ended + {t}), u);
    hide ProcessDialQueue, QueueDistinct;
  }

  lemma TryDialPlace(o: Options, s: State, t: Ticket, attempt: nat, u: Ticket)
    requires QueueDistinct(s) && (s.queue != [] ==> s.queue[0] !in s.rechecking)
    requires t < |s.dials| && t !in s.ended
    ensures Places(TryDial(o, s, t, attempt), u) == Places(s, u) + if u == t && t !in s.dialing then 1 else 0
  {
    hide EndDial;
    if attempt >= o.maxDialAttemptsForPeer {
      EndDialPlace(o, s, t, u);
    }
  }

  lemma CheckedPlace(o: Options, s: State, t: Ticket, ok: bool, u: Ticket)
    requires OnePlaceEach(s) && Enabled(s, Checked(t, ok))
    ensures Places(Next(o, s, Checked(t, ok)), u) == Places(s, u)
  {
    hide TryDial;
    assert Places(s, t) == 1;
    assert s.queue != [] ==> Places(s, s.queue[0]) == 1;
    if ok && s.active < o.maxParallelDials {
      var s1 := s.(checking := s.checking - {t}, rechecking := s.rechecking - {t}, active := s.active + 1);
      TryDialPlace(o, s1, t, 0, u);
    }
  }

  lemma DialedPlace(o: Options, s: State, t: Ticket, ok: bool, u: Ticket)
    requires OnePlaceEach(s) && Enabled(s, Dialed(t, ok))
    ensures Places(Next(o, s, Dialed(t, ok)), u) == Places(s, u)
  {
    hide TryDial, EndDial;
    assert Places(s, t) == 1;
    assert s.queue != [] ==> Places(s, s.queue[0]) == 1;
    if ok {
      EndDialPlace(o, s.(attempts := s.attempts[s.peers[t] := -1]), t, u);
    } else {
      var attempt := s.dialing[t] + 1;
      TryDialPlace(o, s.(attempts := s.attempts[s.peers[t] := attempt]), t, attempt, u);
    }
  }

  lemma PlaceKept(o: Options, s: State, e: Event, t: Ticket)
    requires OnePlaceEach(s) && Enabled(s, e)
    ensures Places(Next(o, s, e), t) == Places(s, t) + if e.Discovered? && t == |s.peers| then 1 else 0
  {
    match e
    case Discovered(_) => assert Places(s, |s.peers|) == 0;
    case Checked(u, ok) => CheckedPlace(o, s, u, ok, t);
    case Dialed(u, ok) => DialedPlace(o, s, u, ok, t);
  }

  lemma OnePlaceKept(o: Options, s: State, e: Event)
    requires Inv(o, s) && Enabled(s, e)
    ensures OnePlaceEach(Next(o, s, e))
  {
    hide DialsBounded, QueueServed, ActiveCounts;
    var s' := Next(o, s, e);
    if e.Checked? {
      assert Places(s, e.ticket) == 1;
    }
    assert |s'.peers| == |s.peers| + if e.Discovered? then 1 else 0;
    forall t: Ticket
      ensures Places(s', t) == if t < |s'.peers| then 1 else 0
    {
      hide Places, Next;
      PlaceKept(o, s, e, t);
    }
  }

  lemma DialsKept(o: Options, s: State, e: Event)
    requires Inv(o, s) && Enabled(s, e)
    ensures DialsBounded(o, Next(o, s, e))
  {
    hide QueueServed, ActiveCounts;
    if !e.Discovered? {
      assert Places(s, e.ticket) == 1;
    } else {
      assert Places(s, |s.peers|) == 0;
    }
    hide OnePlaceEach, Places;
  }

  /** Leaving dialPeer frees a slot, and the freed slot pays for the peer it pops. */
  lemma EndDialCounts(o: Options, s: State, t: Ticket)
    requires 1 <= s.active <= o.maxParallelDials && s.active - 1 == |s.dialing - {t}|
    requires s.queue != [] ==> s.queue[0] !in s.rechecking
    requires QueueServed(o, s)
    ensures ActiveCounts(o, EndDial(o, s, t)) && QueueServed(o, EndDial(o, s, t))
  {
    if s.queue != [] {
      assert |s.rechecking + {s.queue[0]}| == |s.rechecking| + 1;
    }
  }

  lemma TryDialCounts(o: Options, s: State, t: Ticket, attempt: nat)
    requires t < |s.dials| && 1 <= s.active <= o.maxParallelDials && s.active - 1 == |s.dialing - {t}|
    requires s.queue != [] ==> s.queue[0] !in s.rechecking
    requires QueueServed(o, s)
    ensures ActiveCounts(o, TryDial(o, s, t, attempt)) && QueueServed(o, TryDial(o, s, t, attempt))
  {
    if attempt < o.maxDialAttemptsForPeer {
      assert s.dialing[t := attempt].Keys == (s.dialing - {t}).Keys + {t};
      assert |s.dialing[t := attempt].Keys| == |(s.dialing - {t}).Keys| + 1;
    } else {
      EndDialCounts(o, s, t);
    }
  }

  lemma CheckedCounts(o: Options, s: State, t: Ticket, ok: bool)
    requires Inv(o, s) && Enabled(s, Checked(t, ok))
    ensures ActiveCounts(o, Next(o, s, Checked(t, ok))) && QueueServed(o, Next(o, s, Checked(t, ok)))
  {
    hide DialsBounded, TryDial;
    assert Places(s, t) == 1 && s.dialing - {t} == s.dialing;
    assert s.queue != [] ==> Places(s, s.queue[0]) == 1;
    var s1 := s.(checking := s.checking - {t}, rechecking := s.rechecking - {t});
    assert |s1.rechecking| == |s.rechecking| - if t in s.rechecking then 1 else 0;
    if ok && s.active < o.maxParallelDials {
      TryDialCounts(o, s1.(active := s.active + 1), t, 0);
    }
  }

  lemma DialedCounts(o: Options, s: State, t: Ticket, ok: bool)
    requires Inv(o, s) && Enabled(s, Dialed(t, ok))
    ensures ActiveCounts(o, Next(o, s, Dialed(t, ok))) && QueueServed(o, Next(o, s, Dialed(t, ok)))
  {
    hide DialsBounded, EndDial, TryDial;
    assert s.queue != [] ==> Places(s, s.queue[0]) == 1;
    assert |(s.dialing - {t}).Keys| == |s.dialing.Keys - {t}|;
    if ok {
      EndDialCounts(o, s.(attempts := s.attempts[s.peers[t] := -1]), t);
    } else {
      var attempt := s.dialing[t] + 1;
      TryDialCounts(o, s.(attempts := s.attempts[s.peers[t] := attempt]), t, attempt);
    }
  }

  lemma CountsKept(o: Options, s: State, e: Event)
    requires Inv(o, s) && Enabled(s, e)
    ensures ActiveCounts(o, Next(o, s, e)) && QueueServed(o, Next(o, s, e))
  {
    match e
    case Discovered(_) =>
    case Checked(t, ok) => CheckedCounts(o, s, t, ok);
    case Dialed(t, ok) => DialedCounts(o, s, t, ok);
  }

  lemma InvKept(o: Options, s: State, e: Event)
    requires Inv(o, s) && Enabled(s, e)
    ensures Inv(o, Next(o, s, e))
  {
    hide Next;
    OnePlaceKept(o, s, e);
    DialsKept(o, s, e);
    CountsKept(o, s, e);
  }

  lemma {:induction false} InvHolds(o: Options, es: seq<Event>)
    ensures Inv(o, Run(o, es))
  {
    if es != [] {
      InvHolds(o, es[..|es| - 1]);
      var s := Run(o, es[..|es| - 1]);
      if Enabled(s, es[|es| - 1]) {
        InvKept(o, s, es[|es| - 1]);
      }
    }
  }

  // ---------------------------------------------------------------- stranded queues

  /** Peers wait, and nothing is in flight that could ever pop them. */
  predicate Stranded(s: State) {
    s.queue != [] && s.active == 0 && s.checking == {} && s.rechecking == {}
  }

  /** Only refused re-checks strand the queue, and it takes as many as there are dial slots. */
  lemma StrandedOnlyByRefusals(o: Options, es: seq<Event>)
    requires Stranded(Run(o, es))
    ensures Run(o, es).refusedRechecks >= o.maxParallelDials
  {
    InvHolds(o, es);
  }

  /** With slots but no dial attempts every session ends at once, and nothing ever waits. */
  lemma {:induction false} NothingWaits(o: Options, es: seq<Event>)
    requires o.maxParallelDials > 0 && o.maxDialAttemptsForPeer == 0
    ensures Run(o, es).queue == []
  {
    if es != [] {
      var before := es[..|es| - 1];
      NothingWaits(o, before);
      InvHolds(o, before);
      NoneDialing(o, Run(o, before));
    }
  }

  lemma NoneDialing(o: Options, s: State)
    requires Inv(o, s) && o.maxDialAttemptsForPeer == 0
    ensures s.active == 0
  {
    forall t: Ticket
      ensures t !in s.dialing
    {
      assert t in s.dialing ==> Places(s, t) == 1;
    }
    assert s.dialing.Keys == {};
  }

  function Span(lo: nat, hi: nat): (tickets: set<Ticket>)
    ensures forall t :: t in tickets <==> lo <= t < hi
  {
    if hi <= lo then {} else Span(lo, hi - 1) + {hi - 1}
  }

  function Line(lo: nat, hi: nat): (q: seq<Ticket>)
    requires lo <= hi
  {
    seq(hi - lo, i requires 0 <= i => lo + i)
  }

  /**
   Of n tickets those from c on are unchecked, those from q to c wait, those from lo to hi are
   being dialed, and r re-checks have been refused.
   */
  predicate AtWork(s: State, n: nat, lo: nat, hi: nat, q: nat, c: nat, r: nat)
    requires lo <= hi && q <= c
  {
    && |s.peers| == n && |s.dials| == n
    && s.checking == Span(c, n) && s.rechecking == {} && s.queue == Line(q, c)
    && s.dialing.Keys == Span(lo, hi) && s.active == hi - lo && s.refusedRechecks == r
  }

  lemma DiscoverStep(o: Options, s: State, n: nat)
    requires AtWork(s, n, 0, 0, 0, 0, 0)
    ensures AtWork(Next(o, s, Discovered("")), n + 1, 0, 0, 0, 0, 0)
  {
  }

  function Least(a: nat, b: nat): nat {
    if a < b then a else b
  }

  lemma CheckStep(o: Options, s: State, n: nat, k: nat)
    requires k < n && (o.maxParallelDials == 0 || o.maxDialAttemptsForPeer > 0)
    requires AtWork(s, n, 0, Least(k, o.maxParallelDials), Least(k, o.maxParallelDials), k, 0)
    ensures Enabled(s, Checked(k, true))
    ensures var m := Least(k + 1, o.maxParallelDials);
            AtWork(Next(o, s, Checked(k, true)), n, 0, m, m, k + 1, 0)
  {
    assert Span(k, n) - {k} == Span(k + 1, n);
    if k >= o.maxParallelDials {
      assert Line(o.maxParallelDials, k) + [k] == Line(o.maxParallelDials, k + 1);
    } else {
      assert Span(0, k) + {k} == Span(0, k + 1);
      assert Line(k, k) == Line(k + 1, k + 1);
    }
  }

  /** A dial that succeeds pops one peer, whose re-check is refused: the r-th such round. */
  lemma RoundStep(o: Options, s: State, n: nat, r: nat)
    requires var m := o.maxParallelDials;
             1 <= r <= m && n == 2 * m + 1 && AtWork(s, n, r - 1, m, m + r - 1, n, r - 1)
    ensures Enabled(s, Dialed(r - 1, true))
    ensures var m, s1 := o.maxParallelDials, Next(o, s, Dialed(r - 1, true));
            && Enabled(s1, Checked(m + r - 1, false))
            && AtWork(Next(o, s1, Checked(m + r - 1, false)), n, r, m, m + r, n, r)
  {
    var m := o.maxParallelDials;
    var s1 := Next(o, s, Dialed(r - 1, true));
    assert Line(m + r - 1, n)[0] == m + r - 1 && Line(m + r - 1, n)[1..] == Line(m + r, n);
    assert Span(r - 1, m) - {r - 1} == Span(r, m);
    assert s1.rechecking == {m + r - 1} && s1.dialing.Keys == Span(r, m);
    assert s1.checking - {m + r - 1} == s1.checking;
  }

  lemma RunSnoc(o: Options, es: seq<Event>, e: Event)
    requires Enabled(Run(o, es), e)
    ensures Run(o, es + [e]) == Next(o, Run(o, es), e)
  {
    assert (es + [e])[..|es|] == es;
  }

  lemma {:induction false} AllDiscovered(o: Options, n: nat) returns (es: seq<Event>, s: State)
    ensures s == Run(o, es) && AtWork(s, n, 0, 0, 0, 0, 0)
  {
    es, s := [], INITIAL;
    if n > 0 {
      es, s := AllDiscovered(o, n - 1);
      hide AtWork, Next, Run;
      DiscoverStep(o, s, n - 1);
      RunSnoc(o, es, Discovered(""));
      es, s := es + [Discovered("")], Next(o, s, Discovered(""));
    }
  }

  lemma {:induction false} Queued(o: Options, n: nat, k: nat) returns (es: seq<Event>, s: State)
    requires k <= n && (o.maxParallelDials == 0 || o.maxDialAttemptsForPeer > 0)
    ensures s == Run(o, es)
    ensures var m := Least(k, o.maxParallelDials); AtWork(s, n, 0, m, m, k, 0)
  {
    hide AtWork, Next, Enabled, Run;
    if k == 0 {
      es, s := AllDiscovered(o, n);
    } else {
      es, s := Queued(o, n, k - 1);
      CheckStep(o, s, n, k - 1);
      RunSnoc(o, es, Checked(k - 1, true));
      es, s := es + [Checked(k - 1, true)], Next(o, s, Checked(k - 1, true));
    }
  }

  lemma {:induction false} Refused(o: Options, r: nat) returns (es: seq<Event>, s: State)
    requires r <= o.maxParallelDials && (o.maxParallelDials == 0 || o.maxDialAttemptsForPeer > 0)
    ensures s == Run(o, es)
    ensures var m := o.maxParallelDials; AtWork(s, 2 * m + 1, r, m, m + r, 2 * m + 1, r)
  {
    hide AtWork, Next, Enabled, Run;
    var m := o.maxParallelDials;
    if r == 0 {
      es, s := Queued(o, 2 * m + 1, 2 * m + 1);
    } else {
      es, s := Refused(o, r - 1);
      var dialed, checked := Dialed(r - 1, true), Checked(m + r - 1, false);
      RoundStep(o, s, 2 * m + 1, r);
      RunSnoc(o, es, dialed);
      es, s := es + [dialed], Next(o, s, dialed);
      RunSnoc(o, es, checked);
      es, s := es + [checked], Next(o, s, checked);
    }
  }

  lemma LastOneWaits(s: State, m: nat)
    requires AtWork(s, 2 * m + 1, m, m, 2 * m, 2 * m + 1, m)
    ensures Stranded(s) && s.refusedRechecks == m
  {
    assert Line(2 * m, 2 * m + 1) == [2 * m];
    assert Span(2 * m + 1, 2 * m + 1) == {};
  }

  /** Every scheduler that ever makes a peer wait can strand, with one refused re-check per dial slot. */
  lemma QueueCanStrand(o: Options) returns (es: seq<Event>)
    requires o.maxParallelDials == 0 || o.maxDialAttemptsForPeer > 0
    ensures Stranded(Run(o, es)) && Run(o, es).refusedRechecks == o.maxParallelDials
  {
    hide AtWork, Run;
    var s: State;
    es, s := Refused(o, o.maxParallelDials);
    LastOneWaits(s, o.maxParallelDials);
  }

  /**
   Exactly when a scheduler can strand its queue within r refused re-checks: there are no more
   slots than that, and peers can wait at all.
   */
  lemma StrandsIff(o: Options, r: nat)
    ensures (exists es :: Stranded(Run(o, es)) && Run(o, es).refusedRechecks <= r)
       <==> o.maxParallelDials <= r && (o.maxParallelDials == 0 || o.maxDialAttemptsForPeer > 0)
  {
    hide Run;
    forall es | Stranded(Run(o, es)) && Run(o, es).refusedRechecks <= r
      ensures o.maxParallelDials <= r && (o.maxParallelDials == 0 || o.maxDialAttemptsForPeer > 0)
    {
      StrandedOnlyByRefusals(o, es);
      if o.maxParallelDials > 0 && o.maxDialAttemptsForPeer == 0 {
        NothingWaits(o, es);
      }
    }
    if o.maxParallelDials <= r && (o.maxParallelDials == 0 || o.maxDialAttemptsForPeer > 0) {
      var es := QueueCanStrand(o);
    }
  }

  // ---------------------------------------------------------------- every history quiesces

  /** The most events a ticket can still take part in, an event that pops it included. */
  function Weight(o: Options, s: State, t: Ticket): nat {
    if t in s.checking || t in s.rechecking then o.maxDialAttemptsForPeer + 3
    else if t in s.queue then o.maxDialAttemptsForPeer + 2
    else if t in s.dialing && s.dialing[t] <= o.maxDialAttemptsForPeer then
      2 + o.maxDialAttemptsForPeer - s.dialing[t]
    else 0
  }

  function Weights(o: Options, s: State): seq<nat> {
    seq(|s.peers|, t requires 0 <= t => Weight(o, s, t))
  }

  function Sum(w: seq<nat>): nat {
    if w == [] then 0 else Sum(w[..|w| - 1]) + w[|w| - 1]
  }

  lemma {:induction false} SumUpdate(w: seq<nat>, i: nat, v: nat)
    requires i < |w|
    ensures Sum(w[i := v]) == Sum(w) - w[i] + v
    decreases |w|
  {
    var n := |w| - 1;
    if i == n {
      assert w[i := v][..n] == w[..n];
    } else {
      assert w[i := v][..n] == w[..n][i := v];
      SumUpdate(w[..n], i, v);
    }
  }

  /** An event moves its own ticket down, and moves at most one other ticket, up by one. */
  lemma WeightsDrop(o: Options, s: State, e: Event)
    requires Inv(o, s) && Enabled(s, e) && !e.Discovered?
    ensures Sum(Weights(o, Next(o, s, e))) < Sum(Weights(o, s))
  {
    var s', t, w := Next(o, s, e), e.ticket, Weights(o, s);
    OtherWeights(o, s, e);
    assert Moves(o, s, e, t);
    hide Next, Weight;
    var w1 := w[t := Weight(o, s', t)];
    SumUpdate(w, t, Weight(o, s', t));
    var w2 := w1;
    if Pops(s, s') {
      var q := s.queue[0];
      assert Moves(o, s, e, q);
      SumUpdate(w1, q, Weight(o, s', q));
      w2 := w1[q := Weight(o, s', q)];
    }
    forall u: nat | u < |s.peers|
      ensures Weights(o, s')[u] == w2[u]
    {
      assert Moves(o, s, e, u);
    }
    assert Weights(o, s') == w2;
  }

  predicate Pops(s: State, s': State) {
    s.queue != [] && s'.queue == s.queue[1..]
  }

  /** How one event moves one ticket. */
  ghost predicate Moves(o: Options, s: State, e: Event, u: Ticket)
    requires Enabled(s, e) && !e.Discovered?
  {
    var s', t := Next(o, s, e), e.ticket;
    if u == t then Weight(o, s', t) + (if Pops(s, s') then 1 else 0) < Weight(o, s, t)
    else if Pops(s, s') && u == s.queue[0] then Weight(o, s', u) == Weight(o, s, u) + 1
    else Weight(o, s', u) == Weight(o, s, u)
  }

  lemma CheckedMoves(o: Options, s: State, t: Ticket, ok: bool, u: Ticket)
    requires Inv(o, s) && Enabled(s, Checked(t, ok))
    ensures Moves(o, s, Checked(t, ok), u)
  {
    hide QueueServed, ActiveCounts, DialsBounded;
    assert Places(s, t) == 1 && Places(s, u) <= 1;
    if s.queue != [] {
      assert s.queue == [s.queue[0]] + s.queue[1..];
      assert Places(s, s.queue[0]) == 1;
      assert s.queue[0] !in s.queue[1..];
    }
    hide OnePlaceEach;
  }

  lemma DialedMoves(o: Options, s: State, t: Ticket, ok: bool, u: Ticket)
    requires Inv(o, s) && Enabled(s, Dialed(t, ok))
    ensures Moves(o, s, Dialed(t, ok), u)
  {
    hide QueueServed, ActiveCounts;
    assert Places(s, t) == 1 && Places(s, u) <= 1;
    if s.queue != [] {
      assert s.queue == [s.queue[0]] + s.queue[1..];
      assert Places(s, s.queue[0]) == 1;
      assert s.queue[0] !in s.queue[1..];
    }
    hide OnePlaceEach;
  }

  lemma OtherWeights(o: Options, s: State, e: Event)
    requires Inv(o, s) && Enabled(s, e) && !e.Discovered?
    ensures forall u: Ticket :: Moves(o, s, e, u)
    ensures |Next(o, s, e).peers| == |s.peers|
    ensures Pops(s, Next(o, s, e)) ==> s.queue[0] != e.ticket && s.queue[0] < |s.peers|
  {
    assert Places(s, e.ticket) == 1;
    if s.queue != [] {
      assert Places(s, s.queue[0]) == 1;
    }
    forall u: Ticket
      ensures Moves(o, s, e, u)
    {
      hide Moves;
      match e
      case Checked(t, ok) => CheckedMoves(o, s, t, ok, u);
      case Dialed(t, ok) => DialedMoves(o, s, t, ok, u);
    }
  }

  /** The checks and dials that have been answered in a history. */
  function Answered(o: Options, es: seq<Event>): nat {
    if es == [] then 0
    else
      var before := es[..|es| - 1];
      Answered(o, before) + if !es[|es| - 1].Discovered? && Enabled(Run(o, before), es[|es| - 1]) then 1 else 0
  }

  /**
   Whatever the order of events, each discovered peer causes at most maxDialAttemptsForPeer + 3
   scheduler steps, re-checks and retries included: the scheduler cannot spin.
   */
  lemma {:induction false} EveryHistoryQuiesces(o: Options, es: seq<Event>)
    ensures Answered(o, es) + Sum(Weights(o, Run(o, es))) <= |Run(o, es).peers| * (o.maxDialAttemptsForPeer + 3)
  {
    if es != [] {
      var s, e := Run(o, es[..|es| - 1]), es[|es| - 1];
      EveryHistoryQuiesces(o, es[..|es| - 1]);
      InvHolds(o, es[..|es| - 1]);
      EventQuiesces(o, s, e, Answered(o, es[..|es| - 1]));
    }
  }

  lemma EventQuiesces(o: Options, s: State, e: Event, answered: nat)
    requires Inv(o, s) && answered + Sum(Weights(o, s)) <= |s.peers| * (o.maxDialAttemptsForPeer + 3)
    ensures var s' := if Enabled(s, e) then Next(o, s, e) else s;
            var more := if Enabled(s, e) && !e.Discovered? then 1 else 0;
            answered + more + Sum(Weights(o, s')) <= |s'.peers| * (o.maxDialAttemptsForPeer + 3)
  {
    hide Next, Weights, Inv, Sum;
    if Enabled(s, e) {
      if e.Discovered? {
        DiscoveryWeighs(o, s, e.peer);
        var k := o.maxDialAttemptsForPeer + 3;
        assert (|s.peers| + 1) * k == |s.peers| * k + k;
      } else {
        WeightsDrop(o, s, e);
        OtherWeights(o, s, e);
      }
    }
  }

  lemma DiscoveryWeighs(o: Options, s: State, p: PeerId)
    requires Inv(o, s)
    ensures Sum(Weights(o, Next(o, s, Discovered(p)))) == Sum(Weights(o, s)) + o.maxDialAttemptsForPeer + 3
    ensures |Next(o, s, Discovered(p)).peers| == |s.peers| + 1
  {
    var n, s' := |s.peers|, Next(o, s, Discovered(p));
    assert Places(s, n) == 0;
    assert Weights(o, s') == Weights(o, s) + [o.maxDialAttemptsForPeer + 3];
    assert Weights(o, s')[..n] == Weights(o, s);
  }
}
