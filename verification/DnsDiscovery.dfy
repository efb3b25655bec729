/**
 `DnsNodeDiscovery` of packages/discovery/src/dns/dns.ts as it runs: the cache is a field of the
 object, the visited names a field of the context, and both are updated in place.
 */
module DnsDiscovery {
  import opened Wrappers
  import opened DnsSearch

  class SearchContext {
    const domain: Name
    var visits: set<Name>

    constructor (domain: Name)
      ensures this.domain == domain && visits == {}
    {
      this.domain := domain;
      visits := {};
    }
  }

  class DnsNodeDiscovery {
    const world: World
    var dnsTreeCache: map<Name, Entry>
    var clock: nat
    ghost var resolved: seq<Name>
    ghost var entered: seq<Name>

    constructor (world: World)
      ensures this.world == world && dnsTreeCache == map[] && clock == 0 && resolved == [] && entered == []
    {
      this.world := world;
      dnsTreeCache, clock := map[], 0;
      resolved, entered := [], [];
    }

    ghost function Now(context: SearchContext): State
      reads this, context
    {
      State(dnsTreeCache, context.visits, clock, resolved, entered)
    }

    method GetTXTRecord(subdomain: Name, context: SearchContext) returns (entry: Option<Entry>)
      modifies this
      ensures (entry, Now(context)) == Resolve(world, old(Now(context)), subdomain)
    {
      if subdomain in dnsTreeCache {
        return Some(dnsTreeCache[subdomain]);
      }
      var answered := world.up(clock) && subdomain in world.zone;
      clock := clock + 1;
      if !answered {
        return None;
      }
      dnsTreeCache := dnsTreeCache[subdomain := world.zone[subdomain]];
      resolved := resolved + [subdomain];
      entry := Some(world.zone[subdomain]);
    }

    /** The retry loop on a random index is one draw among the indices that are not circular. */
    method SelectRandomPath(branches: seq<Name>, context: SearchContext) returns (next: Option<Name>)
      ensures next == DnsSearch.SelectRandomPath(world, Now(context), branches)
    {
      hide Viable;
      var circularRefs: set<nat> := {};
      ViableNone(context.visits);
      var viable: seq<Name> := [];
      for idx := 0 to |branches|
        invariant viable == Viable(branches[..idx], context.visits)
        invariant |circularRefs| + |viable| == idx
        invariant forall i :: i in circularRefs ==> i < idx
      {
        ViableSnoc(branches, idx, context.visits);
        if branches[idx] in context.visits {
          circularRefs := circularRefs + {idx};
        } else {
          viable := viable + [branches[idx]];
        }
      }
      assert branches[..|branches|] == branches;
      if |circularRefs| == |branches| {
        return None;
      }
      assert viable != [];
      next := Some(viable[world.draw(clock) % |viable|]);
    }

    /**
     The recursion, cut off below the given depth (None). `SearchEnds` gives a depth that is never
     reached where the descent ends, and `DescentFromTerminatesIff` says where that is.
     */
    method SearchTree(subdomain: Name, context: SearchContext, depth: nat) returns (o: Option<Outcome>)
      modifies this, context
      ensures Search(world, old(Now(context)), subdomain, depth)
           == if o.None? then None else Some((o.value, Now(context)))
      decreases depth, 0
    {
      if depth == 0 {
        return None;
      }
      var entry := GetTXTRecord(subdomain, context);
      if entry.None? {
        return Some(Null);
      }
      context.visits := context.visits + {subdomain};
      entered := entered + [subdomain];
      ghost var s2 := Now(context);
      assert Search(world, old(Now(context)), subdomain, depth) == Follow(world, s2, entry.value, depth - 1);
      hide Search;
      match entry.value
      case RootEntry(next) =>
        if next.None? {
          return Some(Null);
        }
        o := Descend(next.value, context, depth - 1);
        assert Follow(world, s2, entry.value, depth - 1) == DnsSearch.Descend(world, s2, next.value, depth - 1);
      case BranchEntry(children) =>
        var next := SelectRandomPath(children, context);
        if next.None? {
          return Some(Null);
        }
        clock := clock + 1;
        ghost var s3 := Now(context);
        o := Descend(next.value, context, depth - 1);
        assert Follow(world, s2, entry.value, depth - 1) == DnsSearch.Descend(world, s3, next.value, depth - 1);
      case RecordEntry(enr) =>
        o := Some(if enr.Some? then Found(enr.value) else Rejected);
      case OtherEntry =>
        o := Some(Null);
    }

    /** A recursive call, awaited inside the `try`: a rejection is caught there. */
    method Descend(next: Name, context: SearchContext, depth: nat) returns (o: Option<Outcome>)
      modifies this, context
      ensures DnsSearch.Descend(world, old(Now(context)), next, depth)
           == if o.None? then None else Some((o.value, Now(context)))
      decreases depth, 1
    {
      o := SearchTree(next, context, depth);
      if o.Some? {
        o := Some(Caught(o.value));
      }
    }
  }
}
