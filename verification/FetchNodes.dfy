/**
 Capability-driven fetching, packages/discovery/src/dns/fetch_nodes.ts: the list version and the
 generator version, which test for duplicates differently. `getNode` is the sequence of answers
 it gives.
 */
module FetchNodes {
  import opened Wrappers

  type NodeId = string

  datatype Waku2 = Waku2(relay: bool, store: bool, filter: bool, lightPush: bool)

  datatype Counts = Counts(relay: nat, store: nat, filter: nat, lightPush: nat)

  datatype PartialCounts = PartialCounts(
    relay: Option<nat>,
    store: Option<nat>,
    filter: Option<nat>,
    lightPush: Option<nat>)

  // `seqNo` stands for the rest of the record: equal ids need not mean equal records
  datatype Enr = Enr(nodeId: Option<NodeId>, waku2: Option<Waku2>, seqNo: nat)

  type GetNode = nat -> Option<Enr>

  const ZERO := Counts(0, 0, 0, 0)

  function OrZero(n: Option<nat>): nat {
    match n
    case None => 0
    case Some(v) => v
  }

  function Wanted(w: PartialCounts): Counts {
    Counts(OrZero(w.relay), OrZero(w.store), OrZero(w.filter), OrZero(w.lightPush))
  }

  function Total(c: Counts): nat {
    c.relay + c.store + c.filter + c.lightPush
  }

  predicate IsSatisfied(wanted: Counts, actual: Counts) {
    && actual.relay >= wanted.relay
    && actual.store >= wanted.store
    && actual.filter >= wanted.filter
    && actual.lightPush >= wanted.lightPush
  }

  predicate HasId(e: Enr) {
    e.nodeId.Some? && e.nodeId.value != ""
  }

  /** `isNewPeer`: no accepted peer has this id. */
  predicate IsNewPeer(e: Enr, peers: seq<Enr>) {
    HasId(e) && forall p :: p in peers ==> p.nodeId != e.nodeId
  }

  function AddCapabilities(node: Waku2, total: Counts): Counts {
    Counts(
      total.relay + (if node.relay then 1 else 0),
      total.store + (if node.store then 1 else 0),
      total.filter + (if node.filter then 1 else 0),
      total.lightPush + (if node.lightPush then 1 else 0))
  }

  function MissingCapabilities(wanted: Counts, actual: Counts): Waku2 {
    Waku2(actual.relay < wanted.relay, actual.store < wanted.store,
          actual.filter < wanted.filter, actual.lightPush < wanted.lightPush)
  }

  /** `helpsSatisfyCapabilities`, which throws once nothing is missing. */
  predicate HelpsSatisfyCapabilities(node: Waku2, wanted: Counts, actual: Counts)
    requires !IsSatisfied(wanted, actual)
  {
    var missing := MissingCapabilities(wanted, actual);
    || (missing.relay && node.relay)
    || (missing.store && node.store)
    || (missing.filter && node.filter)
    || (missing.lightPush && node.lightPush)
  }

  // ---------------------------------------------------------------- the two loops, as functions

  datatype Fetched = Fetched(actual: Counts, peers: seq<Enr>)

  /** Both loops end the same way with a candidate they take for new. */
  function Consider(wanted: Counts, f: Fetched, e: Enr): Fetched
    requires !IsSatisfied(wanted, f.actual)
  {
    if e.waku2.Some? && HelpsSatisfyCapabilities(e.waku2.value, wanted, f.actual) then
      Fetched(AddCapabilities(e.waku2.value, f.actual), f.peers + [e])
    else f
  }

  function ListTurn(wanted: Counts, f: Fetched, answer: Option<Enr>): Fetched
    requires !IsSatisfied(wanted, f.actual)
  {
    if answer.Some? && IsNewPeer(answer.value, f.peers) then Consider(wanted, f, answer.value) else f
  }

  function GeneratorTurn(wanted: Counts, f: Fetched, seen: set<NodeId>, answer: Option<Enr>): (Fetched, set<NodeId>)
    requires !IsSatisfied(wanted, f.actual)
  {
    if answer.Some? && HasId(answer.value) && answer.value.nodeId.value !in seen then
      (Consider(wanted, f, answer.value), seen + {answer.value.nodeId.value})
    else (f, seen)
  }

  /** The list loop from its state after `calls` answers to its end: what it fetched, after how many. */
  function ListLoop(wanted: Counts, limit: int, g: GetNode, f: Fetched, calls: nat): (r: (Fetched, nat))
    ensures r.1 >= calls
    decreases limit - calls
  {
    if IsSatisfied(wanted, f.actual) || calls >= limit then (f, calls)
    else ListLoop(wanted, limit, g, ListTurn(wanted, f, g(calls)), calls + 1)
  }

  function GeneratorLoop(wanted: Counts, limit: int, g: GetNode, f: Fetched, seen: set<NodeId>, calls: nat)
    : (r: (Fetched, nat))
    ensures r.1 >= calls
    decreases limit - calls
  {
    if IsSatisfied(wanted, f.actual) || calls >= limit then (f, calls)
    else
      var (f', seen') := GeneratorTurn(wanted, f, seen, g(calls));
      GeneratorLoop(wanted, limit, g, f', seen', calls + 1)
  }

  function FetchList(w: PartialCounts, errorTolerance: int, g: GetNode): (Fetched, nat) {
    ListLoop(Wanted(w), Total(Wanted(w)) + errorTolerance, g, Fetched(ZERO, []), 0)
  }

  function FetchGenerator(w: PartialCounts, errorTolerance: int, g: GetNode): (Fetched, nat) {
    GeneratorLoop(Wanted(w), Total(Wanted(w)) + errorTolerance, g, Fetched(ZERO, []), {}, 0)
  }

  // ---------------------------------------------------------------- the loops as they run

  method FetchNodesUntilCapabilitiesFulfilled(w: PartialCounts, errorTolerance: int, getNode: GetNode)
    returns (peers: seq<Enr>, totalSearches: nat)
    ensures FetchList(w, errorTolerance, getNode).0.peers == peers
    ensures FetchList(w, errorTolerance, getNode).1 == totalSearches
  {
    var wanted := Wanted(w);
    var maxSearches := wanted.relay + wanted.store + wanted.filter + wanted.lightPush;
    var actual := ZERO;
    totalSearches := 0;
    peers := [];
    while !IsSatisfied(wanted, actual) && totalSearches < maxSearches + errorTolerance
      invariant ListLoop(wanted, maxSearches + errorTolerance, getNode, Fetched(actual, peers), totalSearches)
             == FetchList(w, errorTolerance, getNode)
      decreases maxSearches + errorTolerance - totalSearches
    {
      var peer := getNode(totalSearches);
      if peer.Some? && IsNewPeer(peer.value, peers) {
        if peer.value.waku2.Some? {
          if HelpsSatisfyCapabilities(peer.value.waku2.value, wanted, actual) {
            actual := AddCapabilities(peer.value.waku2.value, actual);
            peers := peers + [peer.value];
          }
        }
      }
      totalSearches := totalSearches + 1;
    }
  }

  method YieldNodesUntilCapabilitiesFulfilled(w: PartialCounts, errorTolerance: int, getNode: GetNode)
    returns (yielded: seq<Enr>, totalSearches: nat)
    ensures FetchGenerator(w, errorTolerance, getNode).0.peers == yielded
    ensures FetchGenerator(w, errorTolerance, getNode).1 == totalSearches
  {
    var wanted := Wanted(w);
    var maxSearches := wanted.relay + wanted.store + wanted.filter + wanted.lightPush;
    var actual := ZERO;
    totalSearches := 0;
    var peerNodeIds: set<NodeId> := {};
    yielded := [];
    while !IsSatisfied(wanted, actual) && totalSearches < maxSearches + errorTolerance
      invariant GeneratorLoop(wanted, maxSearches + errorTolerance, getNode, Fetched(actual, yielded),
                              peerNodeIds, totalSearches)
             == FetchGenerator(w, errorTolerance, getNode)
      decreases maxSearches + errorTolerance - totalSearches
    {
      var peer := getNode(totalSearches);
      if peer.Some? && HasId(peer.value) && peer.value.nodeId.value !in peerNodeIds {
        peerNodeIds := peerNodeIds + {peer.value.nodeId.value};
        if peer.value.waku2.Some? {
          if HelpsSatisfyCapabilities(peer.value.waku2.value, wanted, actual) {
            actual := AddCapabilities(peer.value.waku2.value, actual);
            yielded := yielded + [peer.value];
          }
        }
      }
      totalSearches := totalSearches + 1;
    }
  }

  // ---------------------------------------------------------------- when the two versions agree

  datatype Capability = Relay | Store | Filter | LightPush

  predicate Offers(node: Option<Waku2>, c: Capability) {
    node.Some? && match c
                  case Relay => node.value.relay
                  case Store => node.value.store
                  case Filter => node.value.filter
                  case LightPush => node.value.lightPush
  }

  function CountOf(counts: Counts, c: Capability): nat {
    match c
    case Relay => counts.relay
    case Store => counts.store
    case Filter => counts.filter
    case LightPush => counts.lightPush
  }

  /** Answer i is a record with an id. */
  ghost predicate Identified(g: GetNode, i: nat) {
    g(i).Some? && HasId(g(i).value)
  }

  ghost predicate SameId(g: GetNode, i: nat, j: nat) {
    Identified(g, i) && Identified(g, j) && g(i).value.nodeId == g(j).value.nodeId
  }

  /** No earlier answer has the id of answer i. */
  ghost predicate IsFirst(g: GetNode, i: nat) {
    Identified(g, i) && forall k: nat | k < i :: !SameId(g, k, i)
  }

  /** Answer j announces a capability that the first answer with its id, answer i, lacks. */
  ghost predicate Gains(g: GetNode, i: nat, j: nat, c: Capability) {
    IsFirst(g, i) && SameId(g, i, j) && Offers(g(j).value.waku2, c) && !Offers(g(i).value.waku2, c)
  }

  ghost predicate NoneGains(g: GetNode) {
    forall i: nat, j: nat, c: Capability :: !Gains(g, i, j, c)
  }

  /** Whatever is still missing, this capability set supplies none of it. */
  predicate Useless(node: Option<Waku2>, wanted: Counts, actual: Counts) {
    node.Some? ==> !IsSatisfied(wanted, actual) ==> !HelpsSatisfyCapabilities(node.value, wanted, actual)
  }

  /** The generator has seen exactly the ids answered so far, those of accepted peers among them. */
  ghost predicate SeenSoFar(g: GetNode, f: Fetched, seen: set<NodeId>, calls: nat) {
    && (forall k: nat | k < calls && Identified(g, k) :: g(k).value.nodeId.value in seen)
    && (forall id :: id in seen ==> exists i: nat :: i < calls && IsFirst(g, i) && g(i).value.nodeId == Some(id))
    && (forall p :: p in f.peers ==> HasId(p) && p.nodeId.value in seen)
  }

  /** The first answer of every id is accepted, or will never help. */
  ghost predicate FirstsSettled(wanted: Counts, g: GetNode, f: Fetched, calls: nat) {
    forall i: nat | i < calls && IsFirst(g, i) ::
      !IsNewPeer(g(i).value, f.peers) || Useless(g(i).value.waku2, wanted, f.actual)
  }

  lemma SeenKept(wanted: Counts, g: GetNode, f: Fetched, seen: set<NodeId>, calls: nat)
    requires SeenSoFar(g, f, seen, calls) && !IsSatisfied(wanted, f.actual)
    ensures var (f', seen') := GeneratorTurn(wanted, f, seen, g(calls)); SeenSoFar(g, f', seen', calls + 1)
    ensures Identified(g, calls) && g(calls).value.nodeId.value !in seen ==> IsFirst(g, calls)
  {
    var (f', seen') := GeneratorTurn(wanted, f, seen, g(calls));
    forall id | id in seen'
      ensures exists i: nat :: i < calls + 1 && IsFirst(g, i) && g(i).value.nodeId == Some(id)
    {
      if id in seen {
        var i: nat :| i < calls && IsFirst(g, i) && g(i).value.nodeId == Some(id);
      } else {
        assert IsFirst(g, calls) && g(calls).value.nodeId == Some(id);
      }
    }
  }

  lemma GainsNothing(g: GetNode, i: nat, j: nat, wanted: Counts, actual: Counts)
    requires NoneGains(g) && IsFirst(g, i) && SameId(g, i, j) && Useless(g(i).value.waku2, wanted, actual)
    ensures Useless(g(j).value.waku2, wanted, actual)
  {
    assert forall c: Capability :: !Gains(g, i, j, c);
    assert !Gains(g, i, j, Relay) && !Gains(g, i, j, Store) && !Gains(g, i, j, Filter) && !Gains(g, i, j, LightPush);
  }

  lemma TurnsAgree(wanted: Counts, g: GetNode, f: Fetched, seen: set<NodeId>, calls: nat)
    requires NoneGains(g) && !IsSatisfied(wanted, f.actual)
    requires SeenSoFar(g, f, seen, calls) && FirstsSettled(wanted, g, f, calls)
    ensures var (f', seen') := GeneratorTurn(wanted, f, seen, g(calls));
            f' == ListTurn(wanted, f, g(calls)) && FirstsSettled(wanted, g, f', calls + 1)
  {
    hide NoneGains;
    if Identified(g, calls) && g(calls).value.nodeId.value in seen {
      var i: nat :| i < calls && IsFirst(g, i) && g(i).value.nodeId == g(calls).value.nodeId;
      if IsNewPeer(g(calls).value, f.peers) {
        GainsNothing(g, i, calls, wanted, f.actual);
      }
    }
    SeenKept(wanted, g, f, seen, calls);
  }

  lemma {:induction false} LoopsAgree(wanted: Counts, limit: int, g: GetNode, f: Fetched, seen: set<NodeId>, calls: nat)
    requires NoneGains(g) && SeenSoFar(g, f, seen, calls) && FirstsSettled(wanted, g, f, calls)
    ensures GeneratorLoop(wanted, limit, g, f, seen, calls) == ListLoop(wanted, limit, g, f, calls)
    decreases limit - calls
  {
    if !IsSatisfied(wanted, f.actual) && calls < limit {
      hide SeenSoFar, FirstsSettled, NoneGains;
      TurnsAgree(wanted, g, f, seen, calls);
      SeenKept(wanted, g, f, seen, calls);
      var (f', seen') := GeneratorTurn(wanted, f, seen, g(calls));
      LoopsAgree(wanted, limit, g, f', seen', calls + 1);
    }
  }

  /** Both versions accept the same records in the same order after the same number of calls. */
  lemma VersionsAgree(w: PartialCounts, errorTolerance: int, g: GetNode)
    requires NoneGains(g)
    ensures FetchGenerator(w, errorTolerance, g) == FetchList(w, errorTolerance, g)
  {
    LoopsAgree(Wanted(w), Total(Wanted(w)) + errorTolerance, g, Fetched(ZERO, []), {}, 0);
  }

  function Only(c: Capability, n: nat): PartialCounts {
    match c
    case Relay => PartialCounts(Some(n), None, None, None)
    case Store => PartialCounts(None, Some(n), None, None)
    case Filter => PartialCounts(None, None, Some(n), None)
    case LightPush => PartialCounts(None, None, None, Some(n))
  }

  lemma OnlyWants(c: Capability, n: nat, actual: Counts, node: Option<Waku2>)
    ensures Total(Wanted(Only(c, n))) == n
    ensures IsSatisfied(Wanted(Only(c, n)), actual) <==> CountOf(actual, c) >= n
    ensures node.Some? && CountOf(actual, c) < n ==>
              (HelpsSatisfyCapabilities(node.value, Wanted(Only(c, n)), actual) <==> Offers(node, c))
    ensures node.Some? ==> CountOf(AddCapabilities(node.value, actual), c)
                             == CountOf(actual, c) + if Offers(node, c) then 1 else 0
  {
  }

  /** Asked for one capability only, the generator accepts first answers that offer it. */
  ghost predicate FirstsOffering(g: GetNode, f: Fetched, c: Capability) {
    forall p :: p in f.peers ==> exists k: nat :: IsFirst(g, k) && g(k) == Some(p) && Offers(p.waku2, c)
  }

  lemma {:induction false} GeneratorTakesFirsts(c: Capability, n: nat, limit: int, g: GetNode, f: Fetched,
                                               seen: set<NodeId>, calls: nat)
    requires SeenSoFar(g, f, seen, calls) && FirstsOffering(g, f, c)
    ensures FirstsOffering(g, GeneratorLoop(Wanted(Only(c, n)), limit, g, f, seen, calls).0, c)
    decreases limit - calls
  {
    hide Wanted, Only, Offers, IsFirst;
    var wanted := Wanted(Only(c, n));
    if !IsSatisfied(wanted, f.actual) && calls < limit {
      SeenKept(wanted, g, f, seen, calls);
      var (f', seen') := GeneratorTurn(wanted, f, seen, g(calls));
      if f' != f {
        OnlyWants(c, n, f.actual, g(calls).value.waku2);
        assert IsFirst(g, calls) && g(calls) == Some(g(calls).value);
      }
      hide SeenSoFar, FirstsOffering;
      GeneratorTakesFirsts(c, n, limit, g, f', seen', calls + 1);
    }
  }

  /** Asked for more of a capability than can have come so far, the list version has the id of answer j. */
  lemma {:induction false} ListTakesId(c: Capability, j: nat, g: GetNode, f: Fetched, calls: nat)
    requires calls <= j && CountOf(f.actual, c) <= calls
    requires Identified(g, j) && Offers(g(j).value.waku2, c)
    ensures exists p :: p in ListLoop(Wanted(Only(c, j + 1)), j + 1, g, f, calls).0.peers
                        && p.nodeId == g(j).value.nodeId
    decreases j - calls
  {
    var wanted := Wanted(Only(c, j + 1));
    var f' := ListTurn(wanted, f, g(calls));
    OnlyWants(c, j + 1, f.actual, if g(calls).Some? then g(calls).value.waku2 else None);
    if calls < j {
      ListTakesId(c, j, g, f', calls + 1);
    } else {
      assert exists p :: p in f'.peers && p.nodeId == g(j).value.nodeId by {
        if IsNewPeer(g(j).value, f.peers) {
          assert g(j).value in f'.peers;
        }
      }
      assert ListLoop(wanted, j + 1, g, f', j + 1).0 == f';
    }
  }

  lemma OneFirst(g: GetNode, i: nat, k: nat)
    requires IsFirst(g, i) && IsFirst(g, k) && g(i).value.nodeId == g(k).value.nodeId
    ensures i == k
  {
    assert i < k ==> SameId(g, i, k);
    assert k < i ==> SameId(g, k, i);
  }

  /** A node that announces a capability its first answer lacked is taken by one version only. */
  lemma VersionsDifferOnGain(g: GetNode, i: nat, j: nat, c: Capability)
    requires Gains(g, i, j, c)
    ensures FetchGenerator(Only(c, j + 1), 0, g).0.peers != FetchList(Only(c, j + 1), 0, g).0.peers
  {
    OnlyWants(c, j + 1, ZERO, None);
    ListTakesId(c, j, g, Fetched(ZERO, []), 0);
    GeneratorTakesFirsts(c, j + 1, j + 1, g, Fetched(ZERO, []), {}, 0);
    hide Wanted, Only, ListLoop, GeneratorLoop, IsFirst, Offers, Total;
    var p :| p in FetchList(Only(c, j + 1), 0, g).0.peers && p.nodeId == g(j).value.nodeId;
    if p in FetchGenerator(Only(c, j + 1), 0, g).0.peers {
      var k: nat :| IsFirst(g, k) && g(k) == Some(p) && Offers(p.waku2, c);
      OneFirst(g, i, k);
    }
  }

  /**
   Exactly when the two versions are one: for everything that can be wanted and tolerated they
   agree if and only if no answer announces a capability that the first answer with its id lacks.
   */
  lemma VersionsAgreeIff(g: GetNode)
    ensures NoneGains(g)
       <==> forall w: PartialCounts, errorTolerance: int ::
              FetchGenerator(w, errorTolerance, g) == FetchList(w, errorTolerance, g)
  {
    if NoneGains(g) {
      forall w: PartialCounts, errorTolerance: int
        ensures FetchGenerator(w, errorTolerance, g) == FetchList(w, errorTolerance, g)
      {
        VersionsAgree(w, errorTolerance, g);
      }
    } else {
      var i: nat, j: nat, c: Capability :| Gains(g, i, j, c);
      VersionsDifferOnGain(g, i, j, c);
    }
  }

  /** In particular they agree when answers with the same id have the same capabilities. */
  lemma ConsistentAnswersAgree(w: PartialCounts, errorTolerance: int, g: GetNode)
    requires forall i: nat, j: nat :: SameId(g, i, j) ==> g(i).value.waku2 == g(j).value.waku2
    ensures FetchGenerator(w, errorTolerance, g) == FetchList(w, errorTolerance, g)
  {
    VersionsAgree(w, errorTolerance, g);
  }

  // ---------------------------------------------------------------- who is accepted

  /** Some capability is still missing, and this node has it. */
  ghost predicate OffersMissing(node: Option<Waku2>, wanted: Counts, actual: Counts) {
    exists c: Capability :: CountOf(actual, c) < CountOf(wanted, c) && Offers(node, c)
  }

  lemma SatisfiedIff(wanted: Counts, actual: Counts)
    ensures IsSatisfied(wanted, actual) <==> forall c: Capability :: CountOf(actual, c) >= CountOf(wanted, c)
  {
    if forall c: Capability :: CountOf(actual, c) >= CountOf(wanted, c) {
      assert CountOf(actual, Relay) >= CountOf(wanted, Relay) && CountOf(actual, Store) >= CountOf(wanted, Store);
      assert CountOf(actual, Filter) >= CountOf(wanted, Filter);
      assert CountOf(actual, LightPush) >= CountOf(wanted, LightPush);
    }
  }

  lemma HelpsIff(node: Waku2, wanted: Counts, actual: Counts)
    requires !IsSatisfied(wanted, actual)
    ensures HelpsSatisfyCapabilities(node, wanted, actual) <==> OffersMissing(Some(node), wanted, actual)
  {
    if HelpsSatisfyCapabilities(node, wanted, actual) {
      var c := if actual.relay < wanted.relay && node.relay then Relay
               else if actual.store < wanted.store && node.store then Store
               else if actual.filter < wanted.filter && node.filter then Filter
               else LightPush;
      assert CountOf(actual, c) < CountOf(wanted, c) && Offers(Some(node), c);
    }
  }

  /** Every capability of an accepted node is counted once, and no other. */
  ghost predicate Counted(before: Counts, node: Option<Waku2>, after: Counts) {
    forall c: Capability :: CountOf(after, c) == CountOf(before, c) + if Offers(node, c) then 1 else 0
  }

  /**
   One answer: it is appended exactly when it is new and offers something that is still missing,
   and then its capabilities are counted; otherwise nothing changes.
   */
  ghost predicate Accepts(wanted: Counts, f: Fetched, isNew: bool, e: Enr, f': Fetched) {
    if isNew && OffersMissing(e.waku2, wanted, f.actual) then
      f'.peers == f.peers + [e] && Counted(f.actual, e.waku2, f'.actual)
    else f' == f
  }

  lemma ConsiderAccepts(wanted: Counts, f: Fetched, e: Enr)
    requires !IsSatisfied(wanted, f.actual)
    ensures Accepts(wanted, f, true, e, Consider(wanted, f, e))
  {
    if e.waku2.Some? {
      HelpsIff(e.waku2.value, wanted, f.actual);
    }
  }

  /** The list version calls an answer new when it has an id that no accepted peer has. */
  lemma ListAcceptsIff(wanted: Counts, f: Fetched, e: Enr)
    requires !IsSatisfied(wanted, f.actual)
    ensures var isNew := e.nodeId.Some? && e.nodeId.value != "" && forall p :: p in f.peers ==> p.nodeId != e.nodeId;
            Accepts(wanted, f, isNew, e, ListTurn(wanted, f, Some(e)))
    ensures ListTurn(wanted, f, None) == f
  {
    ConsiderAccepts(wanted, f, e);
  }

  /** The generator calls it new when it has an id not seen before, which it then has seen. */
  lemma GeneratorAcceptsIff(wanted: Counts, f: Fetched, seen: set<NodeId>, e: Enr)
    requires !IsSatisfied(wanted, f.actual)
    ensures var isNew := e.nodeId.Some? && e.nodeId.value != "" && e.nodeId.value !in seen;
            var (f', seen') := GeneratorTurn(wanted, f, seen, Some(e));
            && Accepts(wanted, f, isNew, e, f')
            && seen' == if isNew then seen + {e.nodeId.value} else seen
    ensures GeneratorTurn(wanted, f, seen, None) == (f, seen)
  {
    ConsiderAccepts(wanted, f, e);
  }

  /** Nobody's id is accepted though this answer has one, and it offers something still missing. */
  ghost predicate Overlooked(wanted: Counts, g: GetNode, f: Fetched, k: nat) {
    && Identified(g, k) && (forall p :: p in f.peers ==> p.nodeId != g(k).value.nodeId)
    && OffersMissing(g(k).value.waku2, wanted, f.actual)
  }

  /** Once an answer cannot help it never will, and once its id is accepted it stays so. */
  lemma StaysSettled(wanted: Counts, g: GetNode, f: Fetched, e: Enr, f': Fetched, isNew: bool, k: nat)
    requires Accepts(wanted, f, isNew, e, f') && Identified(g, k) && !Overlooked(wanted, g, f, k)
    ensures !Overlooked(wanted, g, f', k)
  {
    if f' != f {
      assert forall p :: p in f.peers ==> p in f'.peers;
      assert OffersMissing(g(k).value.waku2, wanted, f'.actual) ==> OffersMissing(g(k).value.waku2, wanted, f.actual)
        by { assert forall c: Capability :: CountOf(f.actual, c) <= CountOf(f'.actual, c); }
    }
  }

  lemma {:induction false} ListOverlooksNone(wanted: Counts, limit: int, g: GetNode, f: Fetched, calls: nat, k: nat)
    requires k < calls ==> !Overlooked(wanted, g, f, k)
    requires k < ListLoop(wanted, limit, g, f, calls).1
    ensures !Overlooked(wanted, g, ListLoop(wanted, limit, g, f, calls).0, k)
    decreases limit - calls
  {
    hide Overlooked, Accepts;
    if !IsSatisfied(wanted, f.actual) && calls < limit {
      var f' := ListTurn(wanted, f, g(calls));
      ListTurnOverlooks(wanted, g, f, calls, k);
      ListOverlooksNone(wanted, limit, g, f', calls + 1, k);
    }
  }

  lemma ListTurnOverlooks(wanted: Counts, g: GetNode, f: Fetched, calls: nat, k: nat)
    requires !IsSatisfied(wanted, f.actual) && (k < calls ==> !Overlooked(wanted, g, f, k))
    ensures k < calls + 1 ==> !Overlooked(wanted, g, ListTurn(wanted, f, g(calls)), k)
  {
    if g(calls).Some? {
      var e := g(calls).value;
      ListAcceptsIff(wanted, f, e);
      if k < calls {
        if Identified(g, k) {
          StaysSettled(wanted, g, f, e, ListTurn(wanted, f, g(calls)),
                       HasId(e) && forall p :: p in f.peers ==> p.nodeId != e.nodeId, k);
        }
      } else if k == calls && ListTurn(wanted, f, g(calls)) != f {
        assert e in ListTurn(wanted, f, g(calls)).peers;
      }
    }
  }

  /**
   When the list version gives up unsatisfied it has overlooked nobody: no answer whose id it did
   not accept offers anything that is still missing.
   */
  lemma NobodyOverlooked(w: PartialCounts, errorTolerance: int, g: GetNode, k: nat)
    requires k < FetchList(w, errorTolerance, g).1
    ensures !Overlooked(Wanted(w), g, FetchList(w, errorTolerance, g).0, k)
  {
    ListOverlooksNone(Wanted(w), Total(Wanted(w)) + errorTolerance, g, Fetched(ZERO, []), 0, k);
  }

  lemma {:induction false} GeneratorOverlooksNone(wanted: Counts, limit: int, g: GetNode, f: Fetched,
                                                 seen: set<NodeId>, calls: nat, k: nat)
    requires SeenSoFar(g, f, seen, calls) && IsFirst(g, k) && (k < calls ==> !Overlooked(wanted, g, f, k))
    requires k < GeneratorLoop(wanted, limit, g, f, seen, calls).1
    ensures !Overlooked(wanted, g, GeneratorLoop(wanted, limit, g, f, seen, calls).0, k)
    decreases limit - calls
  {
    hide Overlooked, Accepts, SeenSoFar, IsFirst;
    if !IsSatisfied(wanted, f.actual) && calls < limit {
      var (f', seen') := GeneratorTurn(wanted, f, seen, g(calls));
      SeenKept(wanted, g, f, seen, calls);
      GeneratorTurnOverlooks(wanted, g, f, seen, calls, k);
      GeneratorOverlooksNone(wanted, limit, g, f', seen', calls + 1, k);
    }
  }

  lemma GeneratorTurnOverlooks(wanted: Counts, g: GetNode, f: Fetched, seen: set<NodeId>, calls: nat, k: nat)
    requires SeenSoFar(g, f, seen, calls) && IsFirst(g, k)
    requires !IsSatisfied(wanted, f.actual) && (k < calls ==> !Overlooked(wanted, g, f, k))
    ensures k < calls + 1 ==> !Overlooked(wanted, g, GeneratorTurn(wanted, f, seen, g(calls)).0, k)
  {
    if g(calls).Some? {
      var e := g(calls).value;
      var f' := GeneratorTurn(wanted, f, seen, g(calls)).0;
      GeneratorAcceptsIff(wanted, f, seen, e);
      if k < calls {
        hide SeenSoFar;
        StaysSettled(wanted, g, f, e, f', HasId(e) && e.nodeId.value !in seen, k);
      } else if k == calls {
        if e.nodeId.value in seen {
          var i: nat :| i < calls && IsFirst(g, i) && g(i).value.nodeId == Some(e.nodeId.value);
          OneFirst(g, i, k);
        }
        assert f' != f ==> e in f'.peers;
      }
    }
  }

  /** Nor does the generator overlook the first answer of any id. */
  lemma NobodyOverlookedByGenerator(w: PartialCounts, errorTolerance: int, g: GetNode, k: nat)
    requires k < FetchGenerator(w, errorTolerance, g).1 && IsFirst(g, k)
    ensures !Overlooked(Wanted(w), g, FetchGenerator(w, errorTolerance, g).0, k)
  {
    GeneratorOverlooksNone(Wanted(w), Total(Wanted(w)) + errorTolerance, g, Fetched(ZERO, []), {}, 0, k);
  }

  /** Every accepted peer is one of the answers received. */
  ghost predicate FromAnswers(g: GetNode, f: Fetched, calls: nat) {
    forall p :: p in f.peers ==> exists k: nat :: k < calls && g(k) == Some(p)
  }

  lemma GrowsFromAnswers(g: GetNode, f: Fetched, f': Fetched, calls: nat)
    requires FromAnswers(g, f, calls)
    requires f'.peers == f.peers || (g(calls).Some? && f'.peers == f.peers + [g(calls).value])
    ensures FromAnswers(g, f', calls + 1)
  {
    forall p | p in f'.peers
      ensures exists k: nat :: k < calls + 1 && g(k) == Some(p)
    {
      if p in f.peers {
        var k: nat :| k < calls && g(k) == Some(p);
      } else {
        assert g(calls) == Some(p);
      }
    }
  }

  lemma {:induction false} ListFromAnswers(wanted: Counts, limit: int, g: GetNode, f: Fetched, calls: nat)
    requires FromAnswers(g, f, calls)
    ensures var (f', calls') := ListLoop(wanted, limit, g, f, calls); FromAnswers(g, f', calls')
    decreases limit - calls
  {
    hide FromAnswers;
    if !IsSatisfied(wanted, f.actual) && calls < limit {
      var f' := ListTurn(wanted, f, g(calls));
      GrowsFromAnswers(g, f, f', calls);
      ListFromAnswers(wanted, limit, g, f', calls + 1);
    }
  }

  lemma {:induction false} GeneratorFromAnswers(wanted: Counts, limit: int, g: GetNode, f: Fetched,
                                               seen: set<NodeId>, calls: nat)
    requires FromAnswers(g, f, calls)
    ensures var (f', calls') := GeneratorLoop(wanted, limit, g, f, seen, calls); FromAnswers(g, f', calls')
    decreases limit - calls
  {
    hide FromAnswers;
    if !IsSatisfied(wanted, f.actual) && calls < limit {
      var (f', seen') := GeneratorTurn(wanted, f, seen, g(calls));
      GrowsFromAnswers(g, f, f', calls);
      GeneratorFromAnswers(wanted, limit, g, f', seen', calls + 1);
    }
  }

  /** One wanted capability and one answer that offers it: both versions take it and stop. */
  lemma TakesTheOne(c: Capability, g: GetNode, e: Enr)
    requires g(0) == Some(e) && HasId(e) && Offers(e.waku2, c)
    ensures FetchList(Only(c, 1), 0, g).0.peers == [e] && FetchList(Only(c, 1), 0, g).1 == 1
    ensures FetchGenerator(Only(c, 1), 0, g).0.peers == [e] && FetchGenerator(Only(c, 1), 0, g).1 == 1
  {
    var wanted, start := Wanted(Only(c, 1)), Fetched(ZERO, []);
    OnlyWants(c, 1, ZERO, e.waku2);
    ListAcceptsIff(wanted, start, e);
    GeneratorAcceptsIff(wanted, start, {}, e);
    assert OffersMissing(e.waku2, wanted, ZERO);
    var f := ListTurn(wanted, start, g(0));
    var (f', seen) := GeneratorTurn(wanted, start, {}, g(0));
    assert f.peers == [e] && f'.peers == [e];
    assert ListLoop(wanted, 1, g, f, 1) == (f, 1) && GeneratorLoop(wanted, 1, g, f', seen, 1) == (f', 1);
  }

  // ---------------------------------------------------------------- bounds

  function Short(wanted: nat, actual: nat): nat {
    if actual < wanted then wanted - actual else 0
  }

  /** How many capabilities are still missing in all. */
  function Deficit(wanted: Counts, actual: Counts): nat {
    Short(wanted.relay, actual.relay) + Short(wanted.store, actual.store)
    + Short(wanted.filter, actual.filter) + Short(wanted.lightPush, actual.lightPush)
  }

  function CapabilityCounts(peers: seq<Enr>): Counts {
    if peers == [] then ZERO
    else
      var before := CapabilityCounts(peers[..|peers| - 1]);
      match peers[|peers| - 1].waku2
      case None => before
      case Some(c) => AddCapabilities(c, before)
  }

  /** How many of the peers offer a capability. */
  function Offering(peers: seq<Enr>, c: Capability): nat {
    if peers == [] then 0 else Offering(peers[1..], c) + if Offers(peers[0].waku2, c) then 1 else 0
  }

  lemma {:induction false} OfferingSnoc(peers: seq<Enr>, e: Enr, c: Capability)
    ensures Offering(peers + [e], c) == Offering(peers, c) + if Offers(e.waku2, c) then 1 else 0
  {
    if peers == [] {
      assert ([] + [e])[1..] == [];
    } else {
      assert (peers + [e])[1..] == peers[1..] + [e];
      OfferingSnoc(peers[1..], e, c);
    }
  }

  /** What the loops count is how many of the accepted peers offer each capability. */
  lemma {:induction false} CountsAreOffers(peers: seq<Enr>, c: Capability)
    ensures CountOf(CapabilityCounts(peers), c) == Offering(peers, c)
    decreases |peers|
  {
    if peers != [] {
      var n := |peers| - 1;
      CountsAreOffers(peers[..n], c);
      OfferingSnoc(peers[..n], peers[n], c);
      assert peers == peers[..n] + [peers[n]];
    }
  }

  ghost predicate DistinctIds(peers: seq<Enr>) {
    && (forall i :: 0 <= i < |peers| ==> HasId(peers[i]))
    && (forall i, j :: 0 <= i < j < |peers| ==> peers[i].nodeId != peers[j].nodeId)
  }

  ghost predicate Sound(wanted: Counts, f: Fetched) {
    && DistinctIds(f.peers)
    && f.actual == CapabilityCounts(f.peers)
    && |f.peers| + Deficit(wanted, f.actual) <= Total(wanted)
  }

  /** What one turn of either loop may do: nothing, or accept the answer and lower the deficit. */
  ghost predicate Advances(wanted: Counts, f: Fetched, answer: Option<Enr>, f': Fetched) {
    || f' == f
    || (answer.Some? && f'.peers == f.peers + [answer.value]
        && Deficit(wanted, f'.actual) < Deficit(wanted, f.actual))
  }

  lemma ConsiderSound(wanted: Counts, f: Fetched, e: Enr)
    requires Sound(wanted, f) && !IsSatisfied(wanted, f.actual) && IsNewPeer(e, f.peers)
    ensures Sound(wanted, Consider(wanted, f, e)) && Advances(wanted, f, Some(e), Consider(wanted, f, e))
  {
    var f' := Consider(wanted, f, e);
    if f' != f {
      assert f'.peers[..|f'.peers| - 1] == f.peers;
    }
  }

  /** An accepted peer is new, is counted, and strictly lowers the deficit; a rejected one changes nothing. */
  lemma TurnSound(wanted: Counts, f: Fetched, answer: Option<Enr>)
    requires Sound(wanted, f) && !IsSatisfied(wanted, f.actual)
    ensures Sound(wanted, ListTurn(wanted, f, answer))
    ensures Advances(wanted, f, answer, ListTurn(wanted, f, answer))
  {
    if answer.Some? && IsNewPeer(answer.value, f.peers) {
      ConsiderSound(wanted, f, answer.value);
    }
  }

  ghost predicate AcceptedSeen(f: Fetched, seen: set<NodeId>) {
    forall p :: p in f.peers ==> HasId(p) && p.nodeId.value in seen
  }

  /** The same of the generator, which tests against everything it has seen. */
  lemma GeneratorTurnSound(wanted: Counts, f: Fetched, seen: set<NodeId>, answer: Option<Enr>)
    requires Sound(wanted, f) && AcceptedSeen(f, seen) && !IsSatisfied(wanted, f.actual)
    ensures var (f', seen') := GeneratorTurn(wanted, f, seen, answer);
            Sound(wanted, f') && AcceptedSeen(f', seen') && Advances(wanted, f, answer, f')
  {
    if answer.Some? && HasId(answer.value) && answer.value.nodeId.value !in seen {
      ConsiderSound(wanted, f, answer.value);
    }
  }

  /** What a loop from `calls` on may end with. */
  ghost predicate EndsSound(wanted: Counts, limit: int, calls: nat, f': Fetched, calls': nat) {
    && Sound(wanted, f')
    && calls <= calls' && (calls' <= limit || calls' == calls)
    && (IsSatisfied(wanted, f'.actual) || calls' >= limit)
  }

  lemma {:induction false} LoopSound(wanted: Counts, limit: int, g: GetNode, f: Fetched, calls: nat)
    requires Sound(wanted, f)
    ensures var (f', calls') := ListLoop(wanted, limit, g, f, calls); EndsSound(wanted, limit, calls, f', calls')
    decreases limit - calls
  {
    hide Sound;
    if !IsSatisfied(wanted, f.actual) && calls < limit {
      TurnSound(wanted, f, g(calls));
      LoopSound(wanted, limit, g, ListTurn(wanted, f, g(calls)), calls + 1);
    }
  }

  lemma {:induction false} GeneratorLoopSound(wanted: Counts, limit: int, g: GetNode, f: Fetched,
                                             seen: set<NodeId>, calls: nat)
    requires Sound(wanted, f) && AcceptedSeen(f, seen)
    ensures var (f', calls') := GeneratorLoop(wanted, limit, g, f, seen, calls);
            EndsSound(wanted, limit, calls, f', calls')
    decreases limit - calls
  {
    hide Sound, AcceptedSeen;
    if !IsSatisfied(wanted, f.actual) && calls < limit {
      GeneratorTurnSound(wanted, f, seen, g(calls));
      var (f', seen') := GeneratorTurn(wanted, f, seen, g(calls));
      GeneratorLoopSound(wanted, limit, g, f', seen', calls + 1);
    }
  }

  /**
   At most sum + tolerance calls, at most sum peers, all with different ids, counts that are
   their capabilities, and an end only when satisfied or out of calls.
   */
  ghost predicate Bounded(w: PartialCounts, errorTolerance: int, f: Fetched, calls: nat) {
    var sum := Total(Wanted(w));
    && DistinctIds(f.peers) && |f.peers| <= sum
    && f.actual == CapabilityCounts(f.peers)
    && (calls == 0 || calls <= sum + errorTolerance)
    && (IsSatisfied(Wanted(w), CapabilityCounts(f.peers)) || calls >= sum + errorTolerance)
  }

  /** The list version is bounded, for every sequence of answers. */
  lemma FetchIsBounded(w: PartialCounts, errorTolerance: int, g: GetNode)
    ensures var (f, calls) := FetchList(w, errorTolerance, g); Bounded(w, errorTolerance, f, calls)
  {
    LoopSound(Wanted(w), Total(Wanted(w)) + errorTolerance, g, Fetched(ZERO, []), 0);
  }

  /** So is the generator, for every sequence of answers, whether or not the versions agree on it. */
  lemma GeneratorIsBounded(w: PartialCounts, errorTolerance: int, g: GetNode)
    ensures var (f, calls) := FetchGenerator(w, errorTolerance, g); Bounded(w, errorTolerance, f, calls)
  {
    GeneratorLoopSound(Wanted(w), Total(Wanted(w)) + errorTolerance, g, Fetched(ZERO, []), {}, 0);
  }
}
