/**
 `getPeers` and `getNextPeer` of packages/discovery/src/dns/dns.ts: the fetch loops over the
 searches of one context. What a loop can accept is limited by what the tree below its top
 branch holds.
 */
module PeerDiscovery {
  import opened Wrappers
  import F = FetchNodes
  import D = DnsSearch

  /** The i-th call of `getNode` is the i-th search; `read` is what its record says. */
  ghost predicate AnswersAre(g: F.GetNode, os: seq<D.Outcome>, read: D.Enr -> F.Enr) {
    forall i :: 0 <= i < |os| ==> g(i) == if os[i].Found? then Some(read(os[i].enr)) else None
  }

  /** One more call accepts at most what its search found. */
  lemma FoundGrows(g: F.GetNode, os: seq<D.Outcome>, read: D.Enr -> F.Enr, f: F.Fetched, f': F.Fetched, calls: nat)
    requires AnswersAre(g, os, read) && calls < |os| && |f.peers| <= D.RecordsFound(os[..calls])
    requires f' == f || (g(calls).Some? && |f'.peers| == |f.peers| + 1)
    ensures |f'.peers| <= D.RecordsFound(os[..calls + 1])
  {
    assert os[..calls + 1][..calls] == os[..calls];
  }

  lemma {:induction false} AcceptedAreFound(wanted: F.Counts, limit: int, g: F.GetNode, f: F.Fetched, calls: nat,
                                           os: seq<D.Outcome>, read: D.Enr -> F.Enr)
    requires AnswersAre(g, os, read) && F.ListLoop(wanted, limit, g, f, calls).1 <= |os|
    requires |f.peers| <= D.RecordsFound(os[..calls])
    ensures var (f', calls') := F.ListLoop(wanted, limit, g, f, calls);
            |f'.peers| <= D.RecordsFound(os[..calls'])
    decreases limit - calls
  {
    hide AnswersAre, D.RecordsFound;
    if !F.IsSatisfied(wanted, f.actual) && calls < limit {
      var f1 := F.ListTurn(wanted, f, g(calls));
      FoundGrows(g, os, read, f, f1, calls);
      AcceptedAreFound(wanted, limit, g, f1, calls + 1, os, read);
    }
  }

  lemma {:induction false} YieldedAreFound(wanted: F.Counts, limit: int, g: F.GetNode, f: F.Fetched,
                                          seen: set<F.NodeId>, calls: nat, os: seq<D.Outcome>, read: D.Enr -> F.Enr)
    requires AnswersAre(g, os, read) && F.GeneratorLoop(wanted, limit, g, f, seen, calls).1 <= |os|
    requires |f.peers| <= D.RecordsFound(os[..calls])
    ensures var (f', calls') := F.GeneratorLoop(wanted, limit, g, f, seen, calls);
            |f'.peers| <= D.RecordsFound(os[..calls'])
    decreases limit - calls
  {
    hide AnswersAre, D.RecordsFound;
    if !F.IsSatisfied(wanted, f.actual) && calls < limit {
      var (f1, seen1) := F.GeneratorTurn(wanted, f, seen, g(calls));
      FoundGrows(g, os, read, f, f1, calls);
      YieldedAreFound(wanted, limit, g, f1, seen1, calls + 1, os, read);
    }
  }

  lemma {:induction false} OneOutcomeEach(world: D.World, s: D.State, domain: D.Name, fuel: nat, k: nat)
    requires D.Searches(world, s, domain, fuel, k).Some?
    ensures |D.Searches(world, s, domain, fuel, k).value.0| == k
  {
    if k > 0 {
      hide D.Search;
      OneOutcomeEach(world, s, domain, fuel, k - 1);
    }
  }

  /** A new context, a tree with a branch at its top, and searches that end: `fuel` is deep enough. */
  ghost predicate Searchable(world: D.World, s: D.State, domain: D.Name, fuel: nat) {
    && D.NewContext(world, s) && D.TopBranch(world.zone, domain).Some?
    && D.SafeFrom(world.zone, domain) && fuel >= D.Measure(world.zone, {}, domain)
  }

  /** The outcomes of the first k searches. */
  function Outcomes(world: D.World, s: D.State, domain: D.Name, fuel: nat, k: nat): seq<D.Outcome> {
    match D.Searches(world, s, domain, fuel, k)
    case None => []
    case Some((os, _)) => os
  }

  lemma OutcomesBounded(world: D.World, s: D.State, domain: D.Name, fuel: nat, k: nat)
    requires Searchable(world, s, domain, fuel)
    ensures |Outcomes(world, s, domain, fuel, k)| == k
    ensures D.RecordsFound(Outcomes(world, s, domain, fuel, k)) <= |set c | c in D.TopBranch(world.zone, domain).value|
  {
    hide D.TopBranch, D.NewContext, D.Search, D.SafeFrom, D.Measure, D.RecordsFound;
    D.SearchesEnd(world, s, domain, fuel, k);
    OneOutcomeEach(world, s, domain, fuel, k);
    D.RecordsBounded(world, s, domain, fuel, k);
  }

  /**
   Whatever is wanted, whatever fails and whatever is drawn: the peers returned have different
   ids, and there are at most as many as the top branch has different children.
   */
  lemma PeersBoundedByTree(world: D.World, s: D.State, domain: D.Name, fuel: nat,
                           w: F.PartialCounts, errorTolerance: int, g: F.GetNode, read: D.Enr -> F.Enr)
    requires Searchable(world, s, domain, fuel)
    requires AnswersAre(g, Outcomes(world, s, domain, fuel, F.FetchList(w, errorTolerance, g).1), read)
    ensures var peers := F.FetchList(w, errorTolerance, g).0.peers;
            F.DistinctIds(peers) && |peers| <= |set c | c in D.TopBranch(world.zone, domain).value|
  {
    hide Searchable, Outcomes, AnswersAre, D.TopBranch, F.DistinctIds;
    var calls := F.FetchList(w, errorTolerance, g).1;
    var os := Outcomes(world, s, domain, fuel, calls);
    OutcomesBounded(world, s, domain, fuel, calls);
    F.FetchIsBounded(w, errorTolerance, g);
    assert os[..calls] == os;
    AcceptedAreFound(F.Wanted(w), F.Total(F.Wanted(w)) + errorTolerance, g, F.Fetched(F.ZERO, []), 0, os, read);
  }

  /** The same of the peers that getNextPeer yields. */
  lemma YieldedBoundedByTree(world: D.World, s: D.State, domain: D.Name, fuel: nat,
                             w: F.PartialCounts, errorTolerance: int, g: F.GetNode, read: D.Enr -> F.Enr)
    requires Searchable(world, s, domain, fuel)
    requires AnswersAre(g, Outcomes(world, s, domain, fuel, F.FetchGenerator(w, errorTolerance, g).1), read)
    ensures var peers := F.FetchGenerator(w, errorTolerance, g).0.peers;
            F.DistinctIds(peers) && |peers| <= |set c | c in D.TopBranch(world.zone, domain).value|
  {
    hide Searchable, Outcomes, AnswersAre, D.TopBranch, F.DistinctIds;
    var calls := F.FetchGenerator(w, errorTolerance, g).1;
    var os := Outcomes(world, s, domain, fuel, calls);
    OutcomesBounded(world, s, domain, fuel, calls);
    F.GeneratorIsBounded(w, errorTolerance, g);
    assert os[..calls] == os;
    YieldedAreFound(F.Wanted(w), F.Total(F.Wanted(w)) + errorTolerance, g, F.Fetched(F.ZERO, []), {}, 0, os, read);
  }

  /** The peer is what a record says to which roots and branches lead. */
  ghost predicate IsListed(zone: map<D.Name, D.Entry>, domain: D.Name, read: D.Enr -> F.Enr, peer: F.Enr) {
    exists e: D.Enr, p: seq<D.Name>, m: D.Name :: D.LeadsToRecord(zone, p, domain, m, e) && peer == read(e)
  }

  lemma AnswersAreListed(world: D.World, s: D.State, domain: D.Name, fuel: nat, g: F.GetNode, f: F.Fetched,
                         calls: nat, read: D.Enr -> F.Enr)
    requires Searchable(world, s, domain, fuel) && F.FromAnswers(g, f, calls)
    requires AnswersAre(g, Outcomes(world, s, domain, fuel, calls), read)
    ensures forall p :: p in f.peers ==> IsListed(world.zone, domain, read, p)
  {
    var os := Outcomes(world, s, domain, fuel, calls);
    OutcomesBounded(world, s, domain, fuel, calls);
    D.SearchesEnd(world, s, domain, fuel, calls);
    hide D.Searches, D.SafeFrom, D.Measure, D.LeadsToRecord, D.TopBranch, D.NewContext;
    forall p | p in f.peers
      ensures IsListed(world.zone, domain, read, p)
    {
      var k: nat :| k < calls && g(k) == Some(p);
      D.AllFoundAreThere(world, s, domain, fuel, calls, k, os[k].enr);
    }
  }

  /** getPeers returns only what records in the tree say, and getNextPeer yields nothing else. */
  lemma PeersAreListed(world: D.World, s: D.State, domain: D.Name, fuel: nat,
                       w: F.PartialCounts, errorTolerance: int, g: F.GetNode, read: D.Enr -> F.Enr)
    requires Searchable(world, s, domain, fuel)
    requires AnswersAre(g, Outcomes(world, s, domain, fuel, F.FetchList(w, errorTolerance, g).1), read)
    ensures forall p :: p in F.FetchList(w, errorTolerance, g).0.peers ==> IsListed(world.zone, domain, read, p)
  {
    hide Searchable, Outcomes, AnswersAre, IsListed;
    var (f, calls) := F.FetchList(w, errorTolerance, g);
    F.ListFromAnswers(F.Wanted(w), F.Total(F.Wanted(w)) + errorTolerance, g, F.Fetched(F.ZERO, []), 0);
    AnswersAreListed(world, s, domain, fuel, g, f, calls, read);
  }

  lemma YieldedAreListed(world: D.World, s: D.State, domain: D.Name, fuel: nat,
                         w: F.PartialCounts, errorTolerance: int, g: F.GetNode, read: D.Enr -> F.Enr)
    requires Searchable(world, s, domain, fuel)
    requires AnswersAre(g, Outcomes(world, s, domain, fuel, F.FetchGenerator(w, errorTolerance, g).1), read)
    ensures forall p :: p in F.FetchGenerator(w, errorTolerance, g).0.peers ==> IsListed(world.zone, domain, read, p)
  {
    hide Searchable, Outcomes, AnswersAre, IsListed;
    var (f, calls) := F.FetchGenerator(w, errorTolerance, g);
    F.GeneratorFromAnswers(F.Wanted(w), F.Total(F.Wanted(w)) + errorTolerance, g, F.Fetched(F.ZERO, []), {}, 0);
    AnswersAreListed(world, s, domain, fuel, g, f, calls, read);
  }

  /**
   Every record that can be reached can be returned: if its node has an id and a capability c,
   there are draws under which asking for one node with c gives exactly that node.
   */
  lemma EveryRecordCanBeReturned(zone: map<D.Name, D.Entry>, domain: D.Name, p: seq<D.Name>, m: D.Name, e: D.Enr,
                                 read: D.Enr -> F.Enr, c: F.Capability)
    returns (world: D.World, fuel: nat, g: F.GetNode)
    requires D.LeadsToRecord(zone, p, domain, m, e) && F.HasId(read(e)) && F.Offers(read(e).waku2, c)
    ensures world.zone == zone
    ensures AnswersAre(g, Outcomes(world, D.FRESH, domain, fuel, 1), read)
    ensures F.FetchList(F.Only(c, 1), 0, g).0.peers == [read(e)] && F.FetchList(F.Only(c, 1), 0, g).1 == 1
    ensures F.FetchGenerator(F.Only(c, 1), 0, g).0.peers == [read(e)]
    ensures F.FetchGenerator(F.Only(c, 1), 0, g).1 == 1
  {
    world, fuel := D.DrawsToRecord(zone, domain, p, m, e);
    g := i => Some(read(e));
    assert D.Searches(world, D.FRESH, domain, fuel, 0) == Some(([], D.FRESH));
    assert Outcomes(world, D.FRESH, domain, fuel, 1) == [D.Found(e)];
    F.TakesTheOne(c, g, read(e));
  }
}
