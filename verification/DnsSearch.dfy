/**
 The randomized descent of a DNS tree, packages/discovery/src/dns/dns.ts, and what many descents
 that share one context add up to. A zone gives each subdomain its parsed TXT entry; which
 queries fail and which allowed branch is drawn are oracles indexed by a clock.
 */
module DnsSearch {
  import opened Wrappers

  type Name = string
  type Enr = string

  datatype Entry =
    | RootEntry(next: Option<Name>)    // None: the root does not parse or verify
    | BranchEntry(children: seq<Name>)
    | RecordEntry(enr: Option<Enr>)    // None: the record does not decode
    | OtherEntry

  datatype World = World(zone: map<Name, Entry>, up: nat -> bool, draw: nat -> nat)

  datatype State = State(
    cache: map<Name, Entry>,   // _DNSTreeCache
    visits: set<Name>,         // context.visits
    clock: nat,                // queries and draws made
    resolved: seq<Name>,       // history: names resolved over the network
    entered: seq<Name>)        // history: names whose entry a search went into

  // A rejected promise: the decode error of a record is not awaited where it is caught
  datatype Outcome = Found(enr: Enr) | Null | Rejected

  // ---------------------------------------------------------------- one search

  /** `_getTXTRecord`: the cached entry, or a query that may fail. */
  function Resolve(w: World, s: State, n: Name): (Option<Entry>, State) {
    if n in s.cache then (Some(s.cache[n]), s)
    else
      var s1 := s.(clock := s.clock + 1);
      if w.up(s.clock) && n in w.zone then
        (Some(w.zone[n]), s1.(cache := s.cache[n := w.zone[n]], resolved := s.resolved + [n]))
      else (None, s1)
  }

  /** The branches not visited yet, in order. */
  function Viable(branches: seq<Name>, visits: set<Name>): (r: seq<Name>)
    ensures forall n :: n in r <==> n in branches && n !in visits
  {
    if branches == [] then []
    else
      var last := branches[|branches| - 1];
      Viable(branches[..|branches| - 1], visits) + if last in visits then [] else [last]
  }

  lemma ViableNone(visits: set<Name>)
    ensures Viable([], visits) == []
  {
  }

  lemma ViableSnoc(branches: seq<Name>, i: nat, visits: set<Name>)
    requires i < |branches|
    ensures Viable(branches[..i + 1], visits)
         == Viable(branches[..i], visits) + if branches[i] in visits then [] else [branches[i]]
  {
    assert branches[..i + 1][..i] == branches[..i];
  }

  /** `selectRandomPath`: any unvisited branch, or an exception when there is none. */
  function SelectRandomPath(w: World, s: State, branches: seq<Name>): (r: Option<Name>)
    ensures r.Some? ==> r.value in branches && r.value !in s.visits
    ensures r.None? <==> forall n :: n in branches ==> n in s.visits
  {
    var viable := Viable(branches, s.visits);
    if viable == [] then
      assert forall n :: n in branches && n !in s.visits ==> n in viable;
      None
    else
      assert viable[0] in viable;
      var chosen := viable[w.draw(s.clock) % |viable|];
      assert chosen in viable;
      Some(chosen)
  }

  function Caught(o: Outcome): Outcome {
    if o.Rejected? then Null else o
  }

  /** `_search`, cut off when the fuel runs out. */
  function Search(w: World, s: State, n: Name, fuel: nat): Option<(Outcome, State)>
    decreases fuel, 0
  {
    if fuel == 0 then None
    else
      var (entry, s1) := Resolve(w, s, n);
      if entry.None? then Some((Null, s1)) else Follow(w, Enter(s1, n), entry.value, fuel - 1)
  }

  function Enter(s: State, n: Name): State {
    s.(visits := s.visits + {n}, entered := s.entered + [n])
  }

  /** The `switch` on the type of the entry. */
  function Follow(w: World, s: State, entry: Entry, fuel: nat): Option<(Outcome, State)>
    decreases fuel, 2
  {
    match entry
    case RootEntry(next) => if next.None? then Some((Null, s)) else Descend(w, s, next.value, fuel)
    case BranchEntry(children) =>
      (match SelectRandomPath(w, s, children)
       case None => Some((Null, s))
       case Some(next) => Descend(w, s.(clock := s.clock + 1), next, fuel))
    case RecordEntry(enr) => Some((if enr.Some? then Found(enr.value) else Rejected, s))
    case OtherEntry => Some((Null, s))
  }

  /** A recursive search, awaited inside the `try` of its caller. */
  function Descend(w: World, s: State, next: Name, fuel: nat): Option<(Outcome, State)>
    decreases fuel, 1
  {
    match Search(w, s, next, fuel)
    case None => None
    case Some((o, s')) => Some((Caught(o), s'))
  }

  // ---------------------------------------------------------------- termination

  /** The roots of S that name a root of S. */
  function Prune(zone: map<Name, Entry>, S: set<Name>): set<Name> {
    set n | n in S && n in zone && zone[n].RootEntry? && zone[n].next.Some? && zone[n].next.value in S
  }

  /** The largest subset of S in which every name is a root that names another of the subset. */
  function RootCore(zone: map<Name, Entry>, S: set<Name>): (core: set<Name>)
    ensures core <= S && Prune(zone, core) == core
    decreases |S|
  {
    var S' := Prune(zone, S);
    if S' == S then S else
      assert S' < S;
      ProperSubsetSmaller(S', S);
      RootCore(zone, S')
  }

  lemma ProperSubsetSmaller(a: set<Name>, b: set<Name>)
    requires a < b
    ensures |a| < |b|
  {
    var x :| x in b && x !in a;
    SubsetNotLarger(a, b - {x});
  }

  lemma {:induction false} SubsetNotLarger(a: set<Name>, b: set<Name>)
    requires a <= b
    ensures |a| <= |b|
    decreases b
  {
    if a != {} {
      var x :| x in a;
      SubsetNotLarger(a - {x}, b - {x});
    }
  }

  /** No chain of root records comes back to itself. */
  predicate NoRootCycle(zone: map<Name, Entry>) {
    RootCore(zone, zone.Keys) == {}
  }

  /** How many rounds of pruning a name survives: a root survives longer than the one it names. */
  function Rounds(zone: map<Name, Entry>, S: set<Name>, n: Name): (r: nat)
    ensures r <= |S|
    decreases |S|
  {
    var S' := Prune(zone, S);
    if n !in S || S' == S then 0
    else
      assert S' < S;
      ProperSubsetSmaller(S', S);
      1 + Rounds(zone, S', n)
  }

  lemma {:induction false} RootOutlivesItsTarget(zone: map<Name, Entry>, S: set<Name>, n: Name)
    requires n !in RootCore(zone, S) && n in S && n in zone && zone[n].RootEntry? && zone[n].next.Some?
    ensures Rounds(zone, S, zone[n].next.value) < Rounds(zone, S, n)
    decreases |S|
  {
    var S' := Prune(zone, S);
    assert S' < S;
    ProperSubsetSmaller(S', S);
    if zone[n].next.value in S {
      RootOutlivesItsTarget(zone, S', n);
    }
  }

  ghost predicate CacheFromZone(w: World, s: State) {
    forall n :: n in s.cache ==> n in w.zone && s.cache[n] == w.zone[n]
  }

  function Times(a: nat, b: nat): nat {
    a * b
  }

  /** An upper bound on the depth of a search: unvisited names first, then the roots still to follow. */
  function Measure(zone: map<Name, Entry>, visits: set<Name>, n: Name): (r: nat)
    ensures r >= 1
  {
    if n !in zone then 1
    else Times(|zone.Keys - visits - {n}|, |zone| + 1) + Rounds(zone, zone.Keys, n) + 2
  }

  lemma EnteringKeepsMeasure(zone: map<Name, Entry>, visits: set<Name>, n: Name)
    ensures Measure(zone, visits + {n}, n) == Measure(zone, visits, n)
  {
    assert zone.Keys - (visits + {n}) - {n} == zone.Keys - visits - {n};
  }

  lemma RootMeasure(zone: map<Name, Entry>, visits: set<Name>, n: Name, next: Name)
    requires n !in RootCore(zone, zone.Keys) && n in zone && zone[n] == RootEntry(Some(next)) && n in visits
    ensures Measure(zone, visits, next) < Measure(zone, visits, n)
  {
    RootOutlivesItsTarget(zone, zone.Keys, n);
    var a, b, k := |zone.Keys - visits - {next}|, |zone.Keys - visits - {n}|, |zone| + 1;
    assert zone.Keys - visits - {n} == zone.Keys - visits;
    SubsetNotLarger(zone.Keys - visits - {next}, zone.Keys - visits - {n});
    assert a * k <= b * k;
  }

  lemma TimesNext(a: nat, k: nat)
    ensures Times(a + 1, k) == Times(a, k) + k
  {
  }

  lemma BranchMeasure(zone: map<Name, Entry>, visits: set<Name>, n: Name, next: Name)
    requires n in zone && n in visits && next !in visits
    ensures Measure(zone, visits, next) < Measure(zone, visits, n)
  {
    if next in zone {
      var rest := zone.Keys - visits;
      assert rest - {n} == rest && rest == (rest - {next}) + {next};
      assert |rest| == |rest - {next}| + 1;
      hide Times, Rounds;
      TimesNext(|rest - {next}|, |zone| + 1);
      assert |zone.Keys| == |zone|;
    }
  }

  lemma TimesGrows(a: nat, b: nat, k: nat)
    requires a <= b
    ensures Times(a, k) <= Times(b, k)
  {
  }

  lemma MeasureShrinks(zone: map<Name, Entry>, visits: set<Name>, n: Name)
    ensures Measure(zone, visits, n) <= Measure(zone, {}, n)
  {
    hide Times, Rounds;
    SubsetNotLarger(zone.Keys - visits - {n}, zone.Keys - {} - {n});
    TimesGrows(|zone.Keys - visits - {n}|, |zone.Keys - {} - {n}|, |zone| + 1);
  }

  // ---------------------------------------------------------------- which names lead where

  /** A root record leads to the name it holds, a branch to its children. */
  predicate Edge(zone: map<Name, Entry>, a: Name, b: Name) {
    a in zone && match zone[a]
                 case RootEntry(next) => next == Some(b)
                 case BranchEntry(children) => b in children
                 case _ => false
  }

  predicate Path(zone: map<Name, Entry>, p: seq<Name>) {
    p != [] && forall i :: 0 <= i < |p| - 1 ==> Edge(zone, p[i], p[i + 1])
  }

  ghost predicate Leads(zone: map<Name, Entry>, p: seq<Name>, a: Name, b: Name) {
    Path(zone, p) && p[0] == a && p[|p| - 1] == b
  }

  /** No name on a cycle of root records, or leading into one by roots alone, can be reached. */
  ghost predicate SafeFrom(zone: map<Name, Entry>, n: Name) {
    forall p: seq<Name>, c: Name :: Leads(zone, p, n, c) ==> c !in RootCore(zone, zone.Keys)
  }

  lemma SafeIsKept(zone: map<Name, Entry>, n: Name, next: Name)
    requires SafeFrom(zone, n)
    ensures n !in RootCore(zone, zone.Keys)
    ensures Edge(zone, n, next) ==> SafeFrom(zone, next)
  {
    hide RootCore, Edge;
    assert Leads(zone, [n], n, n);
    if Edge(zone, n, next) {
      forall p: seq<Name>, c: Name | Leads(zone, p, next, c)
        ensures c !in RootCore(zone, zone.Keys)
      {
        var q := [n] + p;
        forall i | 0 <= i < |q| - 1
          ensures Edge(zone, q[i], q[i + 1])
        {
          assert i > 0 ==> q[i] == p[i - 1] && q[i + 1] == p[i];
        }
        assert Leads(zone, q, n, c);
      }
    }
  }

  lemma NoCycleIsSafe(zone: map<Name, Entry>, n: Name)
    requires NoRootCycle(zone)
    ensures SafeFrom(zone, n)
  {
  }

  /** Where no cycle of root records can be reached every search ends, whatever fails or is drawn. */
  lemma {:induction false} SearchEnds(w: World, s: State, n: Name, fuel: nat)
    requires SafeFrom(w.zone, n) && CacheFromZone(w, s) && fuel >= Measure(w.zone, s.visits, n)
    ensures Search(w, s, n, fuel).Some?
    decreases fuel
  {
    hide Measure, SafeFrom, RootCore;
    var (entry, s1) := Resolve(w, s, n);
    if entry.Some? {
      var s2 := Enter(s1, n);
      EnteringKeepsMeasure(w.zone, s.visits, n);
      match entry.value
      case RootEntry(next) =>
        if next.Some? {
          assert Follow(w, s2, entry.value, fuel - 1) == Descend(w, s2, next.value, fuel - 1);
          SafeIsKept(w.zone, n, next.value);
          RootMeasure(w.zone, s2.visits, n, next.value);
          SearchEnds(w, s2, next.value, fuel - 1);
        }
      case BranchEntry(children) =>
        match SelectRandomPath(w, s2, children) {
          case None =>
          case Some(next) =>
            assert Follow(w, s2, entry.value, fuel - 1) == Descend(w, s2.(clock := s2.clock + 1), next, fuel - 1);
            SafeIsKept(w.zone, n, next);
            BranchMeasure(w.zone, s2.visits, n, next);
            SearchEnds(w, s2.(clock := s2.clock + 1), next, fuel - 1);
        }
      case _ =>
    }
  }

  lemma RootStep(w: World, s: State, n: Name, next: Name, fuel: nat)
    requires CacheFromZone(w, s) && n in w.zone && w.zone[n] == RootEntry(Some(next)) && w.up(s.clock) && fuel > 0
    ensures var s' := Enter(Resolve(w, s, n).1, n);
            Search(w, s, n, fuel) == Descend(w, s', next, fuel - 1) && CacheFromZone(w, s')
  {
    assert Resolve(w, s, n).0 == Some(w.zone[n]);
    assert Search(w, s, n, fuel) == Follow(w, Enter(Resolve(w, s, n).1, n), w.zone[n], fuel - 1);
  }

  /** A search that enters a cycle of root records, with every query answered, never ends. */
  lemma {:induction false} RootCycleNeverEnds(w: World, s: State, n: Name, fuel: nat)
    requires CacheFromZone(w, s) && n in RootCore(w.zone, w.zone.Keys)
    requires forall t :: w.up(t)
    ensures Search(w, s, n, fuel).None?
    decreases fuel
  {
    if fuel > 0 {
      hide RootCore, CacheFromZone, Resolve, Follow;
      var core := RootCore(w.zone, w.zone.Keys);
      assert n in Prune(w.zone, core);
      var next := w.zone[n].next.value;
      RootStep(w, s, n, next, fuel);
      hide Search, Prune;
      RootCycleNeverEnds(w, Enter(Resolve(w, s, n).1, n), next, fuel - 1);
    }
  }

  const FRESH := State(map[], {}, 0, [], [])

  ghost predicate Ends(w: World, n: Name) {
    exists fuel :: Search(w, FRESH, n, fuel).Some?
  }

  /**
   Exactly when the descent terminates: on a finite zone every search from every name ends, for
   all failures and all draws, if and only if the root records form no cycle.
   */
  lemma DescentTerminatesIff(zone: map<Name, Entry>)
    ensures NoRootCycle(zone) <==> forall w: World, n: Name | w.zone == zone :: Ends(w, n)
  {
    if NoRootCycle(zone) {
      forall w: World, n: Name | w.zone == zone
        ensures Ends(w, n)
      {
        NoCycleIsSafe(zone, n);
        SearchEnds(w, FRESH, n, Measure(w.zone, {}, n));
      }
    } else {
      var n :| n in RootCore(zone, zone.Keys);
      var w := World(zone, t => true, t => 0);
      forall fuel: nat
        ensures Search(w, FRESH, n, fuel).None?
      {
        RootCycleNeverEnds(w, FRESH, n, fuel);
      }
      assert !Ends(w, n);
    }
  }

  ghost predicate Simple(p: seq<Name>) {
    forall i, j :: 0 <= i < j < |p| ==> p[i] != p[j]
  }

  /** What leads somewhere also leads there without passing a name twice. */
  lemma {:induction false} Simplify(zone: map<Name, Entry>, p: seq<Name>, a: Name, b: Name) returns (q: seq<Name>)
    requires Leads(zone, p, a, b)
    ensures Leads(zone, q, a, b) && Simple(q)
    decreases |p|
  {
    hide Edge;
    if Simple(p) {
      return p;
    }
    var i, j :| 0 <= i < j < |p| && p[i] == p[j];
    var shorter := p[..i] + p[j..];
    forall k | 0 <= k < |shorter| - 1
      ensures Edge(zone, shorter[k], shorter[k + 1])
    {
      if k < i {
        assert shorter[k] == p[k] && shorter[k + 1] == p[k + 1];
      } else {
        assert shorter[k] == p[k - i + j] && shorter[k + 1] == p[k - i + j + 1];
      }
    }
    q := Simplify(zone, shorter, a, b);
  }

  function IndexIn(names: seq<Name>, n: Name): (i: nat)
    requires n in names
    ensures i < |names| && names[i] == n
  {
    if names[0] == n then 0 else 1 + IndexIn(names[1..], n)
  }

  /** Draws that keep a search on a path, each name of which costs a query and each branch a draw. */
  function Draws(zone: map<Name, Entry>, p: seq<Name>, visits: set<Name>, clock: nat): nat -> nat
    decreases |p|
  {
    if |p| <= 1 || p[0] !in zone then t => 0
    else
      var visits' := visits + {p[0]};
      match zone[p[0]]
      case BranchEntry(children) =>
        var viable := Viable(children, visits');
        var index := if p[1] in viable then IndexIn(viable, p[1]) else 0;
        var later := Draws(zone, p[1..], visits', clock + 2);
        (t => if t == clock + 1 then index else later(t))
      case _ => Draws(zone, p[1..], visits', clock + 1)
  }

  ghost predicate Untouched(s: State, p: seq<Name>) {
    forall i :: 0 <= i < |p| ==> p[i] !in s.cache && p[i] !in s.visits
  }

  /** What a name that was neither cached nor visited costs, and leaves behind. */
  lemma FirstEntry(w: World, s: State, n: Name, fuel: nat)
    requires CacheFromZone(w, s) && n in w.zone && n !in s.cache && w.up(s.clock) && fuel > 0
    ensures var s2 := Enter(Resolve(w, s, n).1, n);
            && Search(w, s, n, fuel) == Follow(w, s2, w.zone[n], fuel - 1)
            && CacheFromZone(w, s2) && s2.clock == s.clock + 1
            && s2.cache.Keys == s.cache.Keys + {n} && s2.visits == s.visits + {n}
  {
    assert Resolve(w, s, n).0 == Some(w.zone[n]);
  }

  lemma BranchDraw(w: World, s: State, children: seq<Name>, next: Name, fuel: nat)
    requires next in children && next !in s.visits
    requires next in Viable(children, s.visits) ==> w.draw(s.clock) == IndexIn(Viable(children, s.visits), next)
    ensures Follow(w, s, BranchEntry(children), fuel) == Descend(w, s.(clock := s.clock + 1), next, fuel)
  {
    hide IndexIn, Viable, Descend;
    assert SelectRandomPath(w, s, children) == Some(next);
  }

  /** From now on the draws are those that keep to the path. */
  ghost predicate OnCourse(w: World, s: State, p: seq<Name>) {
    forall t :: t >= s.clock ==> w.draw(t) == Draws(w.zone, p, s.visits, s.clock)(t)
  }

  lemma BranchDraws(w: World, s: State, p: seq<Name>, s2: State)
    requires OnCourse(w, s, p) && |p| > 1 && p[0] in w.zone && w.zone[p[0]].BranchEntry?
    requires s2.visits == s.visits + {p[0]} && s2.clock == s.clock + 1
    ensures var viable := Viable(w.zone[p[0]].children, s2.visits);
            p[1] in viable ==> w.draw(s2.clock) == IndexIn(viable, p[1])
    ensures OnCourse(w, s2.(clock := s2.clock + 1), p[1..])
  {
    hide Viable, IndexIn;
  }

  lemma RootDraws(w: World, s: State, p: seq<Name>, s2: State)
    requires OnCourse(w, s, p) && |p| > 1 && p[0] in w.zone && w.zone[p[0]].RootEntry?
    requires s2.visits == s.visits + {p[0]} && s2.clock == s.clock + 1
    ensures OnCourse(w, s2, p[1..])
  {
  }

  lemma CacheIgnoresClock(w: World, s: State)
    ensures CacheFromZone(w, s.(clock := s.clock + 1)) == CacheFromZone(w, s)
  {
  }

  /** The state after the draw, if the name entered is a branch. */
  function Drawn(w: World, s: State, n: Name): State {
    if n in w.zone && w.zone[n].BranchEntry? then s.(clock := s.clock + 1) else s
  }

  lemma FollowAlong(w: World, s: State, p: seq<Name>, s2: State, fuel: nat)
    requires |p| > 1 && Edge(w.zone, p[0], p[1]) && p[1] !in s2.visits && CacheFromZone(w, s2)
    requires OnCourse(w, s, p) && s2.visits == s.visits + {p[0]} && s2.clock == s.clock + 1
    ensures Follow(w, s2, w.zone[p[0]], fuel) == Descend(w, Drawn(w, s2, p[0]), p[1], fuel)
    ensures CacheFromZone(w, Drawn(w, s2, p[0])) && OnCourse(w, Drawn(w, s2, p[0]), p[1..])
  {
    hide Descend, CacheFromZone, OnCourse, Viable;
    if w.zone[p[0]].RootEntry? {
      RootDraws(w, s, p, s2);
    } else {
      BranchDraws(w, s, p, s2);
      hide Follow;
      BranchDraw(w, s2, w.zone[p[0]].children, p[1], fuel);
      CacheIgnoresClock(w, s2);
    }
  }

  /** What the first step along a path leaves behind. */
  function Stepped(w: World, s: State, p: seq<Name>): State
    requires p != []
  {
    Drawn(w, Enter(Resolve(w, s, p[0]).1, p[0]), p[0])
  }

  /** With every query answered, those draws take a search one step along the path. */
  lemma StepAlong(w: World, s: State, p: seq<Name>, fuel: nat)
    requires |p| > 1 && Edge(w.zone, p[0], p[1]) && p[0] != p[1]
    requires p[0] !in s.cache && p[1] !in s.visits && CacheFromZone(w, s) && w.up(s.clock) && fuel > 0
    requires OnCourse(w, s, p)
    ensures var s' := Stepped(w, s, p);
            && Search(w, s, p[0], fuel) == Descend(w, s', p[1], fuel - 1)
            && CacheFromZone(w, s') && s'.cache.Keys == s.cache.Keys + {p[0]} && s'.visits == s.visits + {p[0]}
            && OnCourse(w, s', p[1..])
  {
    FirstEntry(w, s, p[0], fuel);
    hide Search, Follow, Descend, Resolve, Enter, CacheFromZone, OnCourse;
    FollowAlong(w, s, p, Enter(Resolve(w, s, p[0]).1, p[0]), fuel - 1);
  }

  /** So a search follows the path, and never ends if the path leads to a cycle of root records. */
  lemma {:induction false} FollowPath(w: World, s: State, p: seq<Name>, fuel: nat)
    requires Path(w.zone, p) && Simple(p) && Untouched(s, p) && CacheFromZone(w, s) && OnCourse(w, s, p)
    requires p[|p| - 1] in RootCore(w.zone, w.zone.Keys)
    requires forall t :: w.up(t)
    ensures Search(w, s, p[0], fuel).None?
    decreases |p|
  {
    hide RootCore, OnCourse, Search, CacheFromZone, Edge;
    if |p| == 1 {
      RootCycleNeverEnds(w, s, p[0], fuel);
    } else if fuel == 0 {
      NoFuel(w, s, p[0]);
    } else {
      StepAlong(w, s, p, fuel);
      hide Stepped;
      FollowPath(w, Stepped(w, s, p), p[1..], fuel - 1);
    }
  }

  lemma NoFuel(w: World, s: State, n: Name)
    ensures Search(w, s, n, 0).None?
  {
  }

  /**
   Exactly when the descent from one name terminates, the tree domain say: for all failures and
   all draws, if and only if no cycle of root records can be reached from it.
   */
  lemma DescentFromTerminatesIff(zone: map<Name, Entry>, domain: Name)
    ensures SafeFrom(zone, domain) <==> forall w: World | w.zone == zone :: Ends(w, domain)
  {
    if SafeFrom(zone, domain) {
      forall w: World | w.zone == zone
        ensures Ends(w, domain)
      {
        SearchEnds(w, FRESH, domain, Measure(w.zone, {}, domain));
      }
    } else {
      var p: seq<Name>, c: Name :| Leads(zone, p, domain, c) && c in RootCore(zone, zone.Keys);
      p := Simplify(zone, p, domain, c);
      var w := World(zone, t => true, Draws(zone, p, {}, 0));
      forall fuel: nat
        ensures Search(w, FRESH, domain, fuel).None?
      {
        FollowPath(w, FRESH, p, fuel);
      }
      assert !Ends(w, domain);
    }
  }

  /**
   A search rejects, where null is documented, exactly when it starts at a record that does not
   decode and gets to see it.
   */
  lemma RejectedIff(w: World, s: State, n: Name, fuel: nat)
    requires CacheFromZone(w, s) && Search(w, s, n, fuel).Some?
    ensures Search(w, s, n, fuel).value.0.Rejected?
       <==> n in w.zone && w.zone[n] == RecordEntry(None) && (n in s.cache || w.up(s.clock))
  {
    var (entry, s1) := Resolve(w, s, n);
    if entry.Some? {
      var s2 := Enter(s1, n);
      assert entry.value == w.zone[n];
      assert Search(w, s, n, fuel) == Follow(w, s2, w.zone[n], fuel - 1);
      match w.zone[n]
      case RootEntry(next) =>
        if next.Some? {
          assert Follow(w, s2, w.zone[n], fuel - 1) == Descend(w, s2, next.value, fuel - 1);
        }
      case BranchEntry(children) =>
        var next := SelectRandomPath(w, s2, children);
        if next.Some? {
          assert Follow(w, s2, w.zone[n], fuel - 1)
              == Descend(w, s2.(clock := s2.clock + 1), next.value, fuel - 1);
        }
      case _ =>
    }
  }

  /** In a tree as EIP-1459 lays it out, with its only root at the domain, there is no such cycle. */
  lemma SingleRootHasNoCycle(zone: map<Name, Entry>, domain: Name)
    requires forall n :: n in zone && zone[n].RootEntry? ==> n == domain && zone[n].next != Some(domain)
    ensures NoRootCycle(zone)
  {
    var core := RootCore(zone, zone.Keys);
    assert forall n :: n in core ==> n in Prune(zone, core);
  }

  // ---------------------------------------------------------------- what a search finds

  /** The record at m is e, and roots and branches lead to it along the path. */
  ghost predicate LeadsToRecord(zone: map<Name, Entry>, p: seq<Name>, n: Name, m: Name, e: Enr) {
    Leads(zone, p, n, m) && m in zone && zone[m] == RecordEntry(Some(e))
  }

  lemma LeadsFurther(zone: map<Name, Entry>, n: Name, next: Name, p: seq<Name>, m: Name, e: Enr)
    requires Edge(zone, n, next) && LeadsToRecord(zone, p, next, m, e)
    ensures LeadsToRecord(zone, [n] + p, n, m, e)
  {
    hide Edge;
    var q := [n] + p;
    forall i | 0 <= i < |q| - 1
      ensures Edge(zone, q[i], q[i + 1])
    {
      assert i > 0 ==> q[i] == p[i - 1] && q[i + 1] == p[i];
    }
  }

  /** What the search goes on with after an entry, if it goes on. */
  lemma FollowedFound(w: World, s: State, n: Name, fuel: nat, e: Enr) returns (next: Name, s': State)
    requires n in w.zone && Follow(w, s, w.zone[n], fuel).Some?
    requires Follow(w, s, w.zone[n], fuel).value.0 == Found(e) && w.zone[n] != RecordEntry(Some(e))
    ensures Edge(w.zone, n, next) && s'.cache == s.cache
    ensures Search(w, s', next, fuel).Some? && Search(w, s', next, fuel).value.0 == Found(e)
  {
    match w.zone[n]
    case RootEntry(target) =>
      next, s' := target.value, s;
      assert Follow(w, s, w.zone[n], fuel) == Descend(w, s', next, fuel);
    case BranchEntry(children) =>
      next, s' := SelectRandomPath(w, s, children).value, s.(clock := s.clock + 1);
      assert Follow(w, s, w.zone[n], fuel) == Descend(w, s', next, fuel);
  }

  /** A search that finds something gets to see its entry. */
  lemma SearchFollows(w: World, s: State, n: Name, fuel: nat)
    requires CacheFromZone(w, s) && Search(w, s, n, fuel).Some? && Search(w, s, n, fuel).value.0.Found?
    ensures var s2 := Enter(Resolve(w, s, n).1, n);
            && fuel > 0 && n in w.zone && CacheFromZone(w, s2)
            && Search(w, s, n, fuel) == Follow(w, s2, w.zone[n], fuel - 1)
  {
    hide Follow;
    assert Resolve(w, s, n).0 == Some(w.zone[n]);
  }

  lemma CacheOnly(w: World, s: State)
    ensures forall s': State :: s'.cache == s.cache ==> CacheFromZone(w, s') == CacheFromZone(w, s)
  {
  }

  /** A search finds only records that roots and branches lead to from where it starts. */
  lemma {:induction false} FoundIsThere(w: World, s: State, n: Name, fuel: nat, e: Enr)
    returns (p: seq<Name>, m: Name)
    requires CacheFromZone(w, s) && Search(w, s, n, fuel).Some? && Search(w, s, n, fuel).value.0 == Found(e)
    ensures LeadsToRecord(w.zone, p, n, m, e)
    decreases fuel
  {
    hide Follow, Search, Resolve, CacheFromZone, Edge;
    var s2 := Enter(Resolve(w, s, n).1, n);
    SearchFollows(w, s, n, fuel);
    if w.zone[n] == RecordEntry(Some(e)) {
      p, m := [n], n;
    } else {
      CacheOnly(w, s2);
      var next, s' := FollowedFound(w, s2, n, fuel - 1, e);
      p, m := FoundIsThere(w, s', next, fuel - 1, e);
      LeadsFurther(w.zone, n, next, p, m, e);
      p := [n] + p;
    }
  }

  lemma RecordIsFound(w: World, s: State, n: Name, fuel: nat, e: Enr)
    requires CacheFromZone(w, s) && n in w.zone && w.zone[n] == RecordEntry(Some(e))
    requires n !in s.cache && w.up(s.clock) && fuel > 0
    ensures Search(w, s, n, fuel).Some? && Search(w, s, n, fuel).value.0 == Found(e)
  {
    FirstEntry(w, s, n, fuel);
  }

  /** With every query answered, the draws of a path take the search to the record at its end. */
  lemma {:induction false} FollowToRecord(w: World, s: State, p: seq<Name>, fuel: nat, e: Enr)
    requires Path(w.zone, p) && Simple(p) && Untouched(s, p) && CacheFromZone(w, s) && OnCourse(w, s, p)
    requires p[|p| - 1] in w.zone && w.zone[p[|p| - 1]] == RecordEntry(Some(e))
    requires (forall t :: w.up(t)) && fuel >= |p|
    ensures Search(w, s, p[0], fuel).Some? && Search(w, s, p[0], fuel).value.0 == Found(e)
    decreases |p|
  {
    hide OnCourse, Search, CacheFromZone, Edge;
    if |p| == 1 {
      RecordIsFound(w, s, p[0], fuel, e);
    } else {
      StepAlong(w, s, p, fuel);
      hide Stepped;
      FollowToRecord(w, Stepped(w, s, p), p[1..], fuel - 1, e);
    }
  }

  ghost predicate Finds(w: World, n: Name, fuel: nat, e: Enr) {
    Search(w, FRESH, n, fuel).Some? && Search(w, FRESH, n, fuel).value.0 == Found(e)
  }

  /**
   Exactly which records can be found: for some failures and draws a search from the domain finds
   a record if and only if roots and branches lead to it.
   */
  lemma CanFindIff(zone: map<Name, Entry>, domain: Name, e: Enr)
    ensures (exists w: World, fuel: nat :: w.zone == zone && Finds(w, domain, fuel, e))
       <==> exists p: seq<Name>, m: Name :: LeadsToRecord(zone, p, domain, m, e)
  {
    forall w: World, fuel: nat | w.zone == zone && Finds(w, domain, fuel, e)
      ensures exists p: seq<Name>, m: Name :: LeadsToRecord(zone, p, domain, m, e)
    {
      var p, m := FoundIsThere(w, FRESH, domain, fuel, e);
    }
    if p: seq<Name>, m: Name :| LeadsToRecord(zone, p, domain, m, e) {
      var w, fuel := DrawsToRecord(zone, domain, p, m, e);
    }
  }

  /** Draws that find a given record, every query being answered. */
  lemma DrawsToRecord(zone: map<Name, Entry>, domain: Name, p: seq<Name>, m: Name, e: Enr)
    returns (w: World, fuel: nat)
    requires LeadsToRecord(zone, p, domain, m, e)
    ensures w.zone == zone && Finds(w, domain, fuel, e)
  {
    var q := Simplify(zone, p, domain, m);
    w, fuel := World(zone, t => true, Draws(zone, q, {}, 0)), |q|;
    FollowToRecord(w, FRESH, q, fuel, e);
  }

  // ---------------------------------------------------------------- searches that share a context

  /** The names a root record leads to, besides the domain: they may be entered again and again. */
  function Reenterable(zone: map<Name, Entry>, domain: Name): set<Name> {
    {domain} + set n | n in zone && zone[n].RootEntry? && zone[n].next.Some? :: zone[n].next.value
  }

  ghost predicate Inv(w: World, domain: Name, s: State) {
    && CacheFromZone(w, s)
    && s.visits <= s.cache.Keys
    && (forall n :: n in s.resolved ==> n in s.cache)
    && (forall i, j :: 0 <= i < j < |s.resolved| ==> s.resolved[i] != s.resolved[j])
    && (forall n :: n in s.entered ==> n in s.visits)
    && (forall i, j :: 0 <= i < j < |s.entered| && s.entered[i] == s.entered[j] ==>
          s.entered[i] in Reenterable(w.zone, domain))
  }

  lemma EnterKeeps(w: World, domain: Name, s: State, n: Name)
    requires Inv(w, domain, s) && (n !in s.visits || n in Reenterable(w.zone, domain))
    ensures var (entry, s1) := Resolve(w, s, n);
            && Inv(w, domain, s1) && s1.visits == s.visits
            && (entry.Some? ==>
                  && n in w.zone && entry.value == w.zone[n]
                  && Inv(w, domain, Enter(s1, n)))
  {
  }

  /** What a search keeps: the invariant, every visit, and its start among them if it got past it. */
  ghost predicate Kept(w: World, domain: Name, s: State, n: Name, result: Option<(Outcome, State)>) {
    match result
    case None => true
    case Some((o, s')) =>
      && Inv(w, domain, s')
      && s.visits <= s'.visits
      && (!o.Null? ==> n in s'.visits)
      && (o.Rejected? ==> n in w.zone && w.zone[n] == RecordEntry(None))
  }

  lemma {:induction false} SearchKeeps(w: World, domain: Name, s: State, n: Name, fuel: nat)
    requires Inv(w, domain, s) && (n !in s.visits || n in Reenterable(w.zone, domain))
    ensures Kept(w, domain, s, n, Search(w, s, n, fuel))
    decreases fuel, 0
  {
    if fuel > 0 {
      EnterKeeps(w, domain, s, n);
      hide Inv, Reenterable, Follow;
      var (entry, s1) := Resolve(w, s, n);
      if entry.Some? {
        FollowKeeps(w, domain, Enter(s1, n), n, fuel - 1);
      }
    }
  }

  lemma {:induction false} FollowKeeps(w: World, domain: Name, s: State, n: Name, fuel: nat)
    requires Inv(w, domain, s) && n in s.visits && n in w.zone
    ensures Kept(w, domain, s, n, Follow(w, s, w.zone[n], fuel))
    decreases fuel, 2
  {
    match w.zone[n]
    case RootEntry(next) =>
      if next.Some? {
        assert next.value in Reenterable(w.zone, domain);
        hide Inv, Reenterable;
        DescendKeeps(w, domain, s, n, next.value, fuel);
      }
    case BranchEntry(children) =>
      hide Inv, Reenterable;
      match SelectRandomPath(w, s, children) {
        case None =>
        case Some(next) =>
          InvIgnoresClock(w, domain, s);
          DescendKeeps(w, domain, s.(clock := s.clock + 1), n, next, fuel);
      }
    case _ =>
  }

  lemma {:induction false} DescendKeeps(w: World, domain: Name, s: State, n: Name, next: Name, fuel: nat)
    requires Inv(w, domain, s) && (next !in s.visits || next in Reenterable(w.zone, domain)) && n in s.visits
    ensures Kept(w, domain, s, n, Descend(w, s, next, fuel))
    ensures Descend(w, s, next, fuel).Some? ==> !Descend(w, s, next, fuel).value.0.Rejected?
    decreases fuel, 1
  {
    SearchKeeps(w, domain, s, next, fuel);
  }

  lemma InvIgnoresClock(w: World, domain: Name, s: State)
    ensures Inv(w, domain, s.(clock := s.clock + 1)) == Inv(w, domain, s)
  {
  }

  /** A search that finds a record below a branch has visited one more child of that branch. */
  lemma FoundBelowBranch(w: World, domain: Name, s: State, n: Name, fuel: nat, children: seq<Name>)
    requires Inv(w, domain, s) && (n !in s.visits || n in Reenterable(w.zone, domain))
    requires n in w.zone && w.zone[n] == BranchEntry(children)
    requires Search(w, s, n, fuel).Some? && Search(w, s, n, fuel).value.0.Found?
    ensures exists c :: c in children && c !in s.visits && c in Search(w, s, n, fuel).value.1.visits
  {
    EnterKeeps(w, domain, s, n);
    hide Inv, Reenterable;
    var (entry, s1) := Resolve(w, s, n);
    var s2 := Enter(s1, n);
    assert Search(w, s, n, fuel) == Follow(w, s2, entry.value, fuel - 1);
    hide Search, Resolve;
    var c, s3 := SelectRandomPath(w, s2, children).value, s2.(clock := s2.clock + 1);
    assert Follow(w, s2, entry.value, fuel - 1) == Descend(w, s3, c, fuel - 1);
    InvIgnoresClock(w, domain, s2);
    SearchKeeps(w, domain, s3, c, fuel - 1);
    assert c in children && c !in s.visits && c in Search(w, s, n, fuel).value.1.visits;
  }

  /** The branch that every search goes through: at the domain, or where the root there leads. */
  function TopBranch(zone: map<Name, Entry>, domain: Name): Option<seq<Name>> {
    if domain !in zone then None
    else
      match zone[domain]
      case BranchEntry(children) => Some(children)
      case RootEntry(next) =>
        if next.Some? && next.value in zone && zone[next.value].BranchEntry? then Some(zone[next.value].children)
        else None
      case _ => None
  }

  lemma FoundBelowTop(w: World, domain: Name, s: State, fuel: nat)
    requires Inv(w, domain, s) && TopBranch(w.zone, domain).Some?
    requires Search(w, s, domain, fuel).Some? && Search(w, s, domain, fuel).value.0.Found?
    ensures exists c :: c in TopBranch(w.zone, domain).value
              && c !in s.visits && c in Search(w, s, domain, fuel).value.1.visits
  {
    match w.zone[domain]
    case BranchEntry(children) => FoundBelowBranch(w, domain, s, domain, fuel, children);
    case RootEntry(next) =>
      assert domain in Reenterable(w.zone, domain) && next.value in Reenterable(w.zone, domain);
      EnterKeeps(w, domain, s, domain);
      PastRoot(w, s, domain, next.value, fuel);
      hide Inv, Reenterable, Search, Resolve;
      var s2 := Enter(Resolve(w, s, domain).1, domain);
      FoundBelowBranch(w, domain, s2, next.value, fuel - 1, w.zone[next.value].children);
  }

  lemma PastRoot(w: World, s: State, n: Name, next: Name, fuel: nat)
    requires CacheFromZone(w, s) && n in w.zone && w.zone[n] == RootEntry(Some(next))
    requires Search(w, s, n, fuel).Some? && Search(w, s, n, fuel).value.0.Found?
    ensures fuel > 0 && Resolve(w, s, n).0.Some?
    ensures Search(w, s, n, fuel) == Search(w, Enter(Resolve(w, s, n).1, n), next, fuel - 1)
  {
    var s2 := Enter(Resolve(w, s, n).1, n);
    assert Search(w, s, n, fuel) == Follow(w, s2, w.zone[n], fuel - 1);
    assert Search(w, s, n, fuel) == Descend(w, s2, next, fuel - 1);
    assert Search(w, s2, next, fuel - 1).Some? ==> !Search(w, s2, next, fuel - 1).value.0.Rejected?;
  }

  /** The outcomes of k searches from the domain, one after the other, and the state they leave. */
  function Searches(w: World, s: State, domain: Name, fuel: nat, k: nat): Option<(seq<Outcome>, State)> {
    if k == 0 then Some(([], s))
    else
      var (os, s1) :- Searches(w, s, domain, fuel, k - 1);
      var (o, s2) :- Search(w, s1, domain, fuel);
      Some((os + [o], s2))
  }

  function RecordsFound(os: seq<Outcome>): nat {
    if os == [] then 0 else RecordsFound(os[..|os| - 1]) + if os[|os| - 1].Found? then 1 else 0
  }

  /** A context no search has used yet, over whatever earlier searches left in the cache. */
  ghost predicate NewContext(w: World, s: State) {
    CacheFromZone(w, s) && s.visits == {} && s.resolved == [] && s.entered == []
  }

  /**
   Across any number of searches sharing a context: visited names are cached, no name is
   resolved over the network twice, and no name below a branch is entered twice.
   */
  lemma {:induction false} SearchesKeep(w: World, s: State, domain: Name, fuel: nat, k: nat)
    requires NewContext(w, s) && Searches(w, s, domain, fuel, k).Some?
    ensures Inv(w, domain, Searches(w, s, domain, fuel, k).value.1)
  {
    if k > 0 {
      SearchesKeep(w, s, domain, fuel, k - 1);
      hide Search, Inv;
      SearchKeeps(w, domain, Searches(w, s, domain, fuel, k - 1).value.1, domain, fuel);
    }
  }

  /** Searches that share a context all end if the first can: the measure shrinks as visits grow. */
  lemma {:induction false} SearchesEnd(w: World, s: State, domain: Name, fuel: nat, k: nat)
    requires NewContext(w, s) && SafeFrom(w.zone, domain) && fuel >= Measure(w.zone, {}, domain)
    ensures Searches(w, s, domain, fuel, k).Some?
  {
    if k > 0 {
      SearchesEnd(w, s, domain, fuel, k - 1);
      SearchesKeep(w, s, domain, fuel, k - 1);
      hide Search, SafeFrom, Measure;
      var s1 := Searches(w, s, domain, fuel, k - 1).value.1;
      MeasureShrinks(w.zone, s1.visits, domain);
      SearchEnds(w, s1, domain, fuel);
    }
  }

  /** What any of the searches that share a context finds is a record that can be reached. */
  lemma {:induction false} AllFoundAreThere(w: World, s: State, domain: Name, fuel: nat, k: nat, i: nat, e: Enr)
    requires NewContext(w, s) && Searches(w, s, domain, fuel, k).Some?
    requires i < |Searches(w, s, domain, fuel, k).value.0| && Searches(w, s, domain, fuel, k).value.0[i] == Found(e)
    ensures exists p: seq<Name>, m: Name :: LeadsToRecord(w.zone, p, domain, m, e)
  {
    hide Search, LeadsToRecord;
    var (os, s1) := Searches(w, s, domain, fuel, k - 1).value;
    if i < |os| {
      AllFoundAreThere(w, s, domain, fuel, k - 1, i, e);
    } else {
      SearchesKeep(w, s, domain, fuel, k - 1);
      var p, m := FoundIsThere(w, s1, domain, fuel, e);
    }
  }

  /** However many searches are made, they find at most one record per distinct child of the top branch. */
  lemma RecordsBounded(w: World, s: State, domain: Name, fuel: nat, k: nat)
    requires NewContext(w, s) && Searches(w, s, domain, fuel, k).Some? && TopBranch(w.zone, domain).Some?
    ensures RecordsFound(Searches(w, s, domain, fuel, k).value.0) <= |set c | c in TopBranch(w.zone, domain).value|
  {
    var children := set c | c in TopBranch(w.zone, domain).value;
    RecordsSpendChildren(w, s, domain, fuel, k, children);
    SubsetNotLarger(children * Searches(w, s, domain, fuel, k).value.1.visits, children);
  }

  lemma StartIsReenterable(zone: map<Name, Entry>, domain: Name)
    ensures domain in Reenterable(zone, domain)
  {
  }

  lemma SearchSpendsChild(w: World, domain: Name, s: State, fuel: nat, children: set<Name>)
    requires Inv(w, domain, s) && TopBranch(w.zone, domain).Some? && Search(w, s, domain, fuel).Some?
    requires children == set c | c in TopBranch(w.zone, domain).value
    ensures var (o, s') := Search(w, s, domain, fuel).value;
            |children * s.visits| + (if o.Found? then 1 else 0) <= |children * s'.visits|
  {
    hide Inv, Reenterable, Search, TopBranch;
    StartIsReenterable(w.zone, domain);
    SearchKeeps(w, domain, s, domain, fuel);
    var (o, s') := Search(w, s, domain, fuel).value;
    if o.Found? {
      FoundBelowTop(w, domain, s, fuel);
      var c :| c in children && c !in s.visits && c in s'.visits;
      SubsetNotLarger(children * s.visits + {c}, children * s'.visits);
    } else {
      SubsetNotLarger(children * s.visits, children * s'.visits);
    }
  }

  lemma {:induction false} RecordsSpendChildren(w: World, s: State, domain: Name, fuel: nat, k: nat,
                                               children: set<Name>)
    requires NewContext(w, s) && Searches(w, s, domain, fuel, k).Some? && TopBranch(w.zone, domain).Some?
    requires children == set c | c in TopBranch(w.zone, domain).value
    ensures var (os, s') := Searches(w, s, domain, fuel, k).value; RecordsFound(os) <= |children * s'.visits|
  {
    if k > 0 {
      hide Search, Inv, Reenterable, TopBranch;
      RecordsSpendChildren(w, s, domain, fuel, k - 1, children);
      SearchesKeep(w, s, domain, fuel, k - 1);
      var (os, s1) := Searches(w, s, domain, fuel, k - 1).value;
      var (o, s2) := Search(w, s1, domain, fuel).value;
      SearchSpendsChild(w, domain, s1, fuel, children);
      assert (os + [o])[..|os|] == os;
    }
  }
}
