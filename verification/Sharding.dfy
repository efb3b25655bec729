/**
 Pubsub topics and shard info, packages/utils/src/common/sharding/index.ts. `digest` stands for
 the last eight bytes of the SHA-256 of its argument, read as a number.
 */
module Sharding {
  import opened Wrappers
  import opened Text

  type PubsubTopic = string
  type ContentTopic = string
  type Digest = string -> nat

  datatype ShardInfo = ShardInfo(clusterId: int, shards: seq<int>)

  datatype Failure =
    | InvalidShard | MissingConfiguration
    | InvalidPubsubTopic | InvalidNumber | NoTopics | SeveralClusters
    | EmptyContentTopic | InvalidContentTopic

  const DEFAULT_CLUSTER_ID: int := 1
  const NETWORK_SHARDS: nat := 8

  // A property that is absent, present but undefined, or present
  datatype Property<T> = Absent | IsUndefined | Has(value: T)

  // Partial<NetworkConfig>: static sharding, autosharding, or an application and version
  datatype PartialConfig = PartialConfig(
    clusterId: Option<int>,
    contentTopics: Property<seq<ContentTopic>>,
    shards: Property<seq<int>>,
    application: Property<string>,
    version: Property<string>)

  function StaticConfig(clusterId: Option<int>, shards: seq<int>): PartialConfig {
    PartialConfig(clusterId, Absent, Has(shards), Absent, Absent)
  }

  function OrDefault(clusterId: Option<int>): int {
    match clusterId
    case None => DEFAULT_CLUSTER_ID
    case Some(c) => c
  }

  // ---------------------------------------------------------------- autosharding

  /** `ensureValidContentTopic`: the application and the version of a content topic. */
  function ApplicationAndVersion(contentTopic: ContentTopic): Result<(string, string), Failure> {
    var parts := Split(contentTopic, '/');
    if |parts| < 5 || |parts| > 6 then Err(InvalidContentTopic)
    else if |parts| == 6 && (ParseInt(parts[1]).None? || ParseInt(parts[1]).value > 0) then Err(InvalidContentTopic)
    else
      var fields := parts[|parts| - 4..];
      if fields[0] == "" || fields[1] == "" || fields[2] == "" || fields[3] == "" then Err(InvalidContentTopic)
      else Ok((fields[0], fields[1]))
  }

  function ContentTopicToShardIndex(digest: Digest, contentTopic: ContentTopic, networkShards: nat)
    : Result<int, Failure>
    requires networkShards > 0
  {
    var (application, version) :- ApplicationAndVersion(contentTopic);
    Ok(digest(application + version) % networkShards)
  }

  function Topic(clusterId: int, shard: int): PubsubTopic {
    "/waku/2/rs/" + Print(clusterId) + "/" + Print(shard)
  }

  function ContentTopicToPubsubTopic(digest: Digest, contentTopic: ContentTopic, clusterId: int)
    : Result<PubsubTopic, Failure>
  {
    if contentTopic == "" then Err(EmptyContentTopic)
    else
      var shard :- ContentTopicToShardIndex(digest, contentTopic, NETWORK_SHARDS);
      Ok(Topic(clusterId, shard))
  }

  /** The shard of each content topic, or the exception of the first that is not valid. */
  function ShardIndices(digest: Digest, contentTopics: seq<ContentTopic>): (r: Result<seq<int>, Failure>)
    ensures r.Ok? ==> |r.value| == |contentTopics|
    ensures r.Ok? ==> forall i :: 0 <= i < |contentTopics| ==>
                        ContentTopicToShardIndex(digest, contentTopics[i], NETWORK_SHARDS) == Ok(r.value[i])
  {
    if contentTopics == [] then Ok([])
    else
      var before :- ShardIndices(digest, contentTopics[..|contentTopics| - 1]);
      var last :- ContentTopicToShardIndex(digest, contentTopics[|contentTopics| - 1], NETWORK_SHARDS);
      Ok(before + [last])
  }

  function PubsubTopics(digest: Digest, contentTopics: seq<ContentTopic>, clusterId: int)
    : (r: Result<seq<PubsubTopic>, Failure>)
    ensures r.Ok? ==> |r.value| == |contentTopics|
  {
    if contentTopics == [] then Ok([])
    else
      var before :- PubsubTopics(digest, contentTopics[..|contentTopics| - 1], clusterId);
      var last :- ContentTopicToPubsubTopic(digest, contentTopics[|contentTopics| - 1], clusterId);
      Ok(before + [last])
  }

  // ---------------------------------------------------------------- shard info to topics

  function TopicOf(clusterId: int): int -> PubsubTopic {
    shard => Topic(clusterId, shard)
  }

  function ShardInfoToPubsubTopics(digest: Digest, config: PartialConfig): Result<seq<PubsubTopic>, Failure> {
    if config.contentTopics.Has? then
      var topics :- PubsubTopics(digest, config.contentTopics.value, OrDefault(config.clusterId));
      Ok(Dedup(topics))
    else if config.shards.IsUndefined? then Err(InvalidShard)
    else if config.shards.Has? then Ok(Dedup(Map(TopicOf(OrDefault(config.clusterId)), config.shards.value)))
    else if config.application.Absent? || config.version.Absent? then Err(MissingConfiguration)
    else
      var name := "/" + Shown(config.application) + "/" + Shown(config.version) + "/default/default";
      var topic :- ContentTopicToPubsubTopic(digest, name, OrDefault(config.clusterId));
      Ok([topic])
  }

  /** A property inside a template string. */
  function Shown(p: Property<string>): string {
    if p.Has? then p.value else "undefined"
  }

  // ---------------------------------------------------------------- topics to shard info

  function PubsubTopicToSingleShardInfo(pubsubTopic: PubsubTopic): Result<(int, int), Failure> {
    var parts := Split(pubsubTopic, '/');
    if |parts| != 6 || parts[1] != "waku" || parts[2] != "2" || parts[3] != "rs" then Err(InvalidPubsubTopic)
    else
      match (ParseInt(parts[4]), ParseInt(parts[5]))
      case (Some(clusterId), Some(shard)) => Ok((clusterId, shard))
      case _ => Err(InvalidNumber)
  }

  /** What each topic says, or the exception of the first that is not valid. */
  function ParseTopics(pubsubTopics: seq<PubsubTopic>): (r: Result<seq<(int, int)>, Failure>)
    ensures r.Ok? ==> |r.value| == |pubsubTopics|
  {
    if pubsubTopics == [] then Ok([])
    else
      var before :- ParseTopics(pubsubTopics[..|pubsubTopics| - 1]);
      var last :- PubsubTopicToSingleShardInfo(pubsubTopics[|pubsubTopics| - 1]);
      Ok(before + [last])
  }

  function Clusters(infos: seq<(int, int)>): seq<int> {
    Map((i: (int, int)) => i.0, infos)
  }

  function Shards(infos: seq<(int, int)>): seq<int> {
    Map((i: (int, int)) => i.1, infos)
  }

  /** What pubsubTopicsToShardInfo means: one cluster, and its shards without repetition. */
  function TopicsToShardInfo(pubsubTopics: seq<PubsubTopic>): Result<ShardInfo, Failure> {
    var infos :- ParseTopics(pubsubTopics);
    if infos == [] then Err(NoTopics)
    else if exists i :: 0 <= i < |infos| && infos[i].0 != infos[0].0 then Err(SeveralClusters)
    else Ok(ShardInfo(infos[0].0, Dedup(Shards(infos))))
  }

  /** The entry of a shard in the set that the source keeps. */
  function Pair(info: (int, int)): string {
    Print(info.0) + ":" + Print(info.1)
  }

  /** `set.add(x)`, in insertion order. */
  function Add<T(==)>(s: seq<T>, x: T): seq<T> {
    if x in s then s else s + [x]
  }

  function ShardOfPair(pair: string): int {
    var parts := Split(pair, ':');
    match if |parts| > 1 then ParseInt(parts[1]) else None
    case Some(n) => n
    case None => 0
  }

  /** The loop fills a set of strings and a set of clusters; the result is read back out of them. */
  method PubsubTopicsToShardInfo(pubsubTopics: seq<PubsubTopic>) returns (r: Result<ShardInfo, Failure>)
    ensures r == TopicsToShardInfo(pubsubTopics)
  {
    var shardInfoSet: seq<string> := [];
    var clusterIds: seq<int> := [];
    ghost var infos: seq<(int, int)> := [];
    for i := 0 to |pubsubTopics|
      invariant ParseTopics(pubsubTopics[..i]) == Ok(infos)
      invariant shardInfoSet == Dedup(Map(Pair, infos))
      invariant clusterIds == Dedup(Clusters(infos))
    {
      var single := PubsubTopicToSingleShardInfo(pubsubTopics[i]);
      ParsePrefix(pubsubTopics, i);
      if single.Err? {
        return Err(single.error);
      }
      shardInfoSet := Add(shardInfoSet, Pair(single.value));
      clusterIds := Add(clusterIds, single.value.0);
      DedupSnoc(Pair, infos, single.value);
      DedupSnoc((i: (int, int)) => i.0, infos, single.value);
      infos := infos + [single.value];
    }
    assert pubsubTopics[..|pubsubTopics|] == pubsubTopics;
    DedupEmpty(Map(Pair, infos));
    if |shardInfoSet| == 0 {
      return Err(NoTopics);
    }
    OneCluster(infos);
    if |clusterIds| > 1 {
      return Err(SeveralClusters);
    }
    ShardsFromPairs(infos);
    r := Ok(ShardInfo(clusterIds[0], Map(ShardOfPair, shardInfoSet)));
  }

  lemma {:induction false} ParsePrefix(topics: seq<PubsubTopic>, i: nat)
    requires i < |topics| && ParseTopics(topics[..i]).Ok?
    ensures match PubsubTopicToSingleShardInfo(topics[i])
            case Err(e) => ParseTopics(topics) == Err(e)
            case Ok(info) => ParseTopics(topics[..i + 1]) == Ok(ParseTopics(topics[..i]).value + [info])
    decreases |topics|
  {
    hide PubsubTopicToSingleShardInfo;
    var n := |topics| - 1;
    if i < n {
      assert topics[..n][..i] == topics[..i] && topics[..n][..i + 1] == topics[..i + 1];
      ParsePrefix(topics[..n], i);
    } else {
      assert topics[..i + 1] == topics;
    }
    assert topics[..i + 1][..i] == topics[..i];
  }

  lemma DedupSnoc<A, B>(f: A -> B, s: seq<A>, x: A)
    ensures Dedup(Map(f, s + [x])) == Add(Dedup(Map(f, s)), f(x))
  {
    assert Map(f, s + [x]) == Map(f, s) + [f(x)];
    assert Map(f, s + [x])[..|s|] == Map(f, s);
  }

  lemma OneCluster(infos: seq<(int, int)>)
    requires infos != []
    ensures var ids := Dedup(Clusters(infos));
            && |ids| > 0
            && (|ids| > 1 <==> exists i :: 0 <= i < |infos| && infos[i].0 != infos[0].0)
            && (|ids| == 1 ==> ids[0] == infos[0].0)
  {
    var ids := Dedup(Clusters(infos));
    DedupDistinct(Clusters(infos));
    assert Clusters(infos)[0] in ids;
    if |ids| > 1 {
      assert ids[0] in Clusters(infos) && ids[1] in Clusters(infos);
    }
    if i :| 0 <= i < |infos| && infos[i].0 != infos[0].0 {
      assert Clusters(infos)[i] in ids;
    }
  }

  lemma PairsDiffer(a: (int, int))
    ensures Split(Pair(a), ':') == [Print(a.0), Print(a.1)]
    ensures ShardOfPair(Pair(a)) == a.1
  {
    assert Pair(a) == Print(a.0) + [':'] + Print(a.1);
    SplitFirst(Print(a.0), Print(a.1), ':');
    SplitNone(Print(a.1), ':');
    ParsePrint(a.1);
  }

  /** When all topics are of one cluster, the shards read back are the shards without repetition. */
  lemma ShardsFromPairs(infos: seq<(int, int)>)
    ensures (forall i :: 0 <= i < |infos| ==> infos[i].0 == infos[0].0) ==>
              Map(ShardOfPair, Dedup(Map(Pair, infos))) == Dedup(Shards(infos))
  {
    if infos != [] && forall i :: 0 <= i < |infos| ==> infos[i].0 == infos[0].0 {
      var c, shards := infos[0].0, Shards(infos);
      var pairOf := shard => Pair((c, shard));
      forall i | 0 <= i < |infos|
        ensures Map(Pair, infos)[i] == Map(pairOf, shards)[i]
      {
        assert infos[i] == (c, shards[i]);
      }
      assert Map(Pair, infos) == Map(pairOf, shards);
      forall shard: int
        ensures ShardOfPair(pairOf(shard)) == shard
      {
        PairsDiffer((c, shard));
      }
      DedupMap(pairOf, shards);
      assert Map(ShardOfPair, Map(pairOf, Dedup(shards))) == Dedup(shards);
    }
  }

  // ---------------------------------------------------------------- the two directions

  lemma TopicSplits(c: string, s: string)
    requires '/' !in c && '/' !in s
    ensures Split("/waku/2/rs/" + c + "/" + s, '/') == ["", "waku", "2", "rs", c, s]
  {
    hide Split;
    var t4 := c + ['/'] + s;
    var t3 := "rs" + ['/'] + t4;
    var t2 := "2" + ['/'] + t3;
    var t1 := "waku" + ['/'] + t2;
    assert "/waku/2/rs/" + c + "/" + s == "" + ['/'] + t1;
    SplitNone(s, '/');
    SplitFirst(c, s, '/');
    SplitFirst("rs", t4, '/');
    SplitFirst("2", t3, '/');
    SplitFirst("waku", t2, '/');
    SplitFirst("", t1, '/');
  }

  /** A topic says which cluster and shard it was made from. */
  lemma TopicParses(clusterId: int, shard: int)
    ensures PubsubTopicToSingleShardInfo(Topic(clusterId, shard)) == Ok((clusterId, shard))
  {
    hide Split, ParseInt, Print;
    TopicSplits(Print(clusterId), Print(shard));
    ParsePrint(clusterId);
    ParsePrint(shard);
  }

  function OfCluster(clusterId: int, shards: seq<int>): seq<(int, int)> {
    Map(shard => (clusterId, shard), shards)
  }

  lemma {:induction false} TopicsParse(clusterId: int, shards: seq<int>)
    ensures ParseTopics(Map(TopicOf(clusterId), shards)) == Ok(OfCluster(clusterId, shards))
    decreases |shards|
  {
    hide PubsubTopicToSingleShardInfo, Topic;
    if shards != [] {
      var n, topics := |shards| - 1, Map(TopicOf(clusterId), shards);
      TopicsParse(clusterId, shards[..n]);
      assert topics[..n] == Map(TopicOf(clusterId), shards[..n]);
      TopicParses(clusterId, shards[n]);
      assert OfCluster(clusterId, shards) == OfCluster(clusterId, shards[..n]) + [(clusterId, shards[n])];
    } else {
      assert OfCluster(clusterId, shards) == [];
    }
  }

  lemma TopicsDistinct(clusterId: int, shards: seq<int>)
    ensures Dedup(Map(TopicOf(clusterId), shards)) == Map(TopicOf(clusterId), Dedup(shards))
  {
    forall a, b | TopicOf(clusterId)(a) == TopicOf(clusterId)(b)
      ensures a == b
    {
      TopicParses(clusterId, a);
      TopicParses(clusterId, b);
    }
    DedupMap(TopicOf(clusterId), shards);
  }

  /** Reading topics back undoes making them: same cluster, and the shards without repetition. */
  lemma TopicsRoundTrip(digest: Digest, clusterId: Option<int>, shards: seq<int>)
    ensures ShardInfoToPubsubTopics(digest, StaticConfig(clusterId, shards)).Ok?
    ensures var topics := ShardInfoToPubsubTopics(digest, StaticConfig(clusterId, shards)).value;
            TopicsToShardInfo(topics)
              == if shards == [] then Err(NoTopics)
                 else Ok(ShardInfo(match clusterId case None => 1 case Some(c) => c, Dedup(shards)))
  {
    hide Dedup, TopicOf, ParseTopics;
    var c := OrDefault(clusterId);
    TopicsDistinct(c, shards);
    TopicsParse(c, Dedup(shards));
    DedupDistinct(shards);
    DedupOfDistinct(Dedup(shards));
    assert Shards(OfCluster(c, Dedup(shards))) == Dedup(shards);
    DedupEmpty(shards);
  }

  // ---------------------------------------------------------------- ensureShardingConfigured

  datatype NetworkConfig = NetworkConfig(
    clusterId: Option<int>,
    shards: Option<seq<int>>,
    contentTopics: Option<seq<ContentTopic>>)

  datatype Configured = Configured(shardInfo: ShardInfo, pubsubTopics: seq<PubsubTopic>)

  function EnsureShardingConfigured(digest: Digest, config: NetworkConfig): Result<Configured, Failure> {
    var clusterId := OrDefault(config.clusterId);
    if config.shards.Some? && |config.shards.value| > 0 then
      var topics :- ShardInfoToPubsubTopics(digest, StaticConfig(Some(clusterId), config.shards.value));
      Ok(Configured(ShardInfo(clusterId, config.shards.value), topics))
    else if config.contentTopics.Some? && |config.contentTopics.value| > 0 then
      var topics :- PubsubTopics(digest, config.contentTopics.value, clusterId);
      var shards :- ShardIndices(digest, config.contentTopics.value);
      Ok(Configured(ShardInfo(clusterId, Dedup(shards)), Dedup(topics)))
    else Err(MissingConfiguration)
  }

  lemma {:induction false} AutoshardingTopics(digest: Digest, contentTopics: seq<ContentTopic>, clusterId: int)
    requires PubsubTopics(digest, contentTopics, clusterId).Ok?
    ensures ShardIndices(digest, contentTopics).Ok?
    ensures PubsubTopics(digest, contentTopics, clusterId).value
         == Map(TopicOf(clusterId), ShardIndices(digest, contentTopics).value)
    decreases |contentTopics|
  {
    if contentTopics != [] {
      AutoshardingTopics(digest, contentTopics[..|contentTopics| - 1], clusterId);
    }
  }

  /**
   Static sharding and autosharding alike: the topics returned are exactly those the returned
   shard info stands for, in the same order, and reading them back gives its shards.
   */
  lemma ConfiguredAgrees(digest: Digest, config: NetworkConfig)
    requires EnsureShardingConfigured(digest, config).Ok?
    ensures var got := EnsureShardingConfigured(digest, config).value;
            && ShardInfoToPubsubTopics(digest, StaticConfig(Some(got.shardInfo.clusterId), got.shardInfo.shards))
                 == Ok(got.pubsubTopics)
            && TopicsToShardInfo(got.pubsubTopics)
                 == Ok(ShardInfo(got.shardInfo.clusterId, Dedup(got.shardInfo.shards)))
  {
    hide Dedup, TopicOf, TopicsToShardInfo, PubsubTopics, ShardIndices;
    var got := EnsureShardingConfigured(digest, config).value;
    var c := got.shardInfo.clusterId;
    if !(config.shards.Some? && |config.shards.value| > 0) {
      var contentTopics := config.contentTopics.value;
      AutoshardingTopics(digest, contentTopics, c);
      var shards := ShardIndices(digest, contentTopics).value;
      TopicsDistinct(c, shards);
      TopicsDistinct(c, Dedup(shards));
      DedupDistinct(shards);
      DedupOfDistinct(Dedup(shards));
      DedupEmpty(shards);
    }
    TopicsRoundTrip(digest, Some(c), got.shardInfo.shards);
  }

  // ---------------------------------------------------------------- what topics look like

  lemma JoinFrom(parts: seq<string>, k: nat)
    requires k + 1 < |parts|
    ensures Join(parts[k..], '/') == parts[k] + ['/'] + Join(parts[k + 1..], '/')
  {
    assert parts[k..][1..] == parts[k + 1..];
    hide Join;
  }

  lemma Join5(a: string, b: string, c: string, d: string, e: string)
    ensures Join([a, b, c, d, e], '/') == a + "/" + b + "/" + c + "/" + d + "/" + e
  {
    var parts := [a, b, c, d, e];
    assert Join(parts[4..], '/') == e;
    hide Join;
    JoinFrom(parts, 3);
    JoinFrom(parts, 2);
    JoinFrom(parts, 1);
    JoinFrom(parts, 0);
    assert parts[0..] == parts;
    assert Join(parts[2..], '/') == c + "/" + d + "/" + e;
  }

  lemma Join6(a: string, b: string, c: string, d: string, e: string, f: string)
    ensures Join([a, b, c, d, e, f], '/') == a + "/" + b + "/" + c + "/" + d + "/" + e + "/" + f
  {
    var parts := [a, b, c, d, e, f];
    Join5(b, c, d, e, f);
    assert parts[1..] == [b, c, d, e, f] && parts[0..] == parts;
    JoinFrom(parts, 0);
    hide Join;
  }

  /** Six parts, with the prefix of static sharding in the middle. */
  ghost predicate Shaped(topic: PubsubTopic, x: string, a: string, b: string) {
    '/' !in x && '/' !in a && '/' !in b && topic == x + "/waku/2/rs/" + a + "/" + b
  }

  /** Two numbers after it. */
  ghost predicate NamesShard(topic: PubsubTopic, x: string, a: string, b: string, clusterId: int, shard: int) {
    && Shaped(topic, x, a, b)
    && ParseInt(a) == Some(clusterId) && ParseInt(b) == Some(shard)
  }

  lemma NamedParses(topic: PubsubTopic, x: string, a: string, b: string, clusterId: int, shard: int)
    requires NamesShard(topic, x, a, b, clusterId, shard)
    ensures PubsubTopicToSingleShardInfo(topic) == Ok((clusterId, shard))
  {
    hide Split, ParseInt, Join;
    Join6(x, "waku", "2", "rs", a, b);
    SplitIff(topic, '/', [x, "waku", "2", "rs", a, b]);
  }

  /** Exactly which topics are read, and as which cluster and shard. */
  lemma TopicParsesIff(topic: PubsubTopic, clusterId: int, shard: int)
    ensures PubsubTopicToSingleShardInfo(topic) == Ok((clusterId, shard))
       <==> exists x, a, b :: NamesShard(topic, x, a, b, clusterId, shard)
  {
    hide Split, ParseInt, Join;
    var parts := Split(topic, '/');
    SplitIff(topic, '/', parts);
    if PubsubTopicToSingleShardInfo(topic) == Ok((clusterId, shard)) {
      Join6(parts[0], "waku", "2", "rs", parts[4], parts[5]);
      assert parts == [parts[0], "waku", "2", "rs", parts[4], parts[5]];
      assert NamesShard(topic, parts[0], parts[4], parts[5], clusterId, shard);
    }
    if x, a, b :| NamesShard(topic, x, a, b, clusterId, shard) {
      NamedParses(topic, x, a, b, clusterId, shard);
    }
  }

  /** Which of the two exceptions any other string gives. */
  lemma TopicFails(topic: PubsubTopic)
    ensures PubsubTopicToSingleShardInfo(topic) == Err(InvalidPubsubTopic)
       <==> !exists x, a, b :: Shaped(topic, x, a, b)
    ensures PubsubTopicToSingleShardInfo(topic) == Err(InvalidNumber)
       <==> exists x, a, b :: Shaped(topic, x, a, b) && (ParseInt(a).None? || ParseInt(b).None?)
  {
    hide Split, ParseInt, Join;
    var parts := Split(topic, '/');
    SplitIff(topic, '/', parts);
    if |parts| == 6 && parts[1] == "waku" && parts[2] == "2" && parts[3] == "rs" {
      Join6(parts[0], "waku", "2", "rs", parts[4], parts[5]);
      assert parts == [parts[0], "waku", "2", "rs", parts[4], parts[5]];
      assert Shaped(topic, parts[0], parts[4], parts[5]);
    }
    forall x, a, b | Shaped(topic, x, a, b)
      ensures parts == [x, "waku", "2", "rs", a, b]
    {
      ShapedParts(topic, x, a, b);
    }
    hide Shaped;
  }

  lemma ShapedParts(topic: PubsubTopic, x: string, a: string, b: string)
    requires Shaped(topic, x, a, b)
    ensures Split(topic, '/') == [x, "waku", "2", "rs", a, b]
  {
    hide Split, Join;
    Join6(x, "waku", "2", "rs", a, b);
    SplitIff(topic, '/', [x, "waku", "2", "rs", a, b]);
  }

  /** Five parts, or six with a generation that is not positive, of which the last four are not empty. */
  ghost predicate Spells(contentTopic: ContentTopic, a: string, v: string, p: seq<string>) {
    && |p| == 4 && Free(p, '/') && '/' !in a && '/' !in v
    && a != "" && v != "" && p[2] != "" && p[3] != ""
    && (contentTopic == p[0] + "/" + a + "/" + v + "/" + p[2] + "/" + p[3]
        || (ParseInt(p[1]).Some? && ParseInt(p[1]).value <= 0
            && contentTopic == p[0] + "/" + p[1] + "/" + a + "/" + v + "/" + p[2] + "/" + p[3]))
  }

  /** Exactly which content topics are valid, and what their application and version are. */
  lemma ContentTopicIff(contentTopic: ContentTopic, a: string, v: string)
    ensures ApplicationAndVersion(contentTopic) == Ok((a, v)) <==> exists p :: Spells(contentTopic, a, v, p)
  {
    hide Split, ParseInt, Join;
    var parts := Split(contentTopic, '/');
    SplitIff(contentTopic, '/', parts);
    if ApplicationAndVersion(contentTopic) == Ok((a, v)) {
      if |parts| == 5 {
        Join5(parts[0], parts[1], parts[2], parts[3], parts[4]);
        assert parts == [parts[0], parts[1], parts[2], parts[3], parts[4]];
        assert Spells(contentTopic, a, v, [parts[0], "", parts[3], parts[4]]);
      } else {
        Join6(parts[0], parts[1], parts[2], parts[3], parts[4], parts[5]);
        assert parts == [parts[0], parts[1], parts[2], parts[3], parts[4], parts[5]];
        assert Spells(contentTopic, a, v, [parts[0], parts[1], parts[4], parts[5]]);
      }
    }
    if p :| Spells(contentTopic, a, v, p) {
      Join5(p[0], a, v, p[2], p[3]);
      Join6(p[0], p[1], a, v, p[2], p[3]);
      SplitIff(contentTopic, '/', [p[0], a, v, p[2], p[3]]);
      SplitIff(contentTopic, '/', [p[0], p[1], a, v, p[2], p[3]]);
    }
  }

  /** The two spellings in use, with and without a generation, and the shard they are sent to. */
  lemma ContentTopicShard(digest: Digest, a: string, v: string, n: string, e: string)
    requires '/' !in a && '/' !in v && '/' !in n && '/' !in e && a != "" && v != "" && n != "" && e != ""
    ensures ContentTopicToShardIndex(digest, "/" + a + "/" + v + "/" + n + "/" + e, 8) == Ok(digest(a + v) % 8)
    ensures ContentTopicToShardIndex(digest, "/0/" + a + "/" + v + "/" + n + "/" + e, 8) == Ok(digest(a + v) % 8)
  {
    hide ParseInt, ApplicationAndVersion;
    var short := "/" + a + "/" + v + "/" + n + "/" + e;
    var long := "/0/" + a + "/" + v + "/" + n + "/" + e;
    ParsePrint(0);
    assert Print(0) == "0";
    assert short == "" + "/" + a + "/" + v + "/" + n + "/" + e;
    assert long == "" + "/" + "0" + "/" + a + "/" + v + "/" + n + "/" + e;
    assert Spells(short, a, v, ["", "0", n, e]) && Spells(long, a, v, ["", "0", n, e]);
    ContentTopicIff(short, a, v);
    ContentTopicIff(long, a, v);
  }

  // ---------------------------------------------------------------- what a configuration comes to

  /** The topics of some shards of a cluster. */
  function Printed(clusterId: int, shards: seq<int>): seq<PubsubTopic> {
    seq(|shards|, i requires 0 <= i < |shards| => "/waku/2/rs/" + Print(clusterId) + "/" + Print(shards[i]))
  }

  /** The cluster is the one configured, and 1 when none is. */
  ghost predicate ClusterIs(configured: Option<int>, clusterId: int) {
    match configured
    case None => clusterId == 1
    case Some(c) => clusterId == c
  }

  ghost predicate Given<T>(list: Option<seq<T>>) {
    list.Some? && |list.value| > 0
  }

  /** Static sharding: exactly the shards configured, and their topics without repetition. */
  lemma StaticConfigured(digest: Digest, config: NetworkConfig, clusterId: int)
    requires Given(config.shards) && ClusterIs(config.clusterId, clusterId)
    ensures EnsureShardingConfigured(digest, config)
         == Ok(Configured(ShardInfo(clusterId, config.shards.value), Dedup(Printed(clusterId, config.shards.value))))
  {
    assert Map(TopicOf(clusterId), config.shards.value) == Printed(clusterId, config.shards.value);
    hide Dedup;
  }

  ghost predicate IsNamed(contentTopic: ContentTopic, name: (string, string)) {
    exists p :: Spells(contentTopic, name.0, name.1, p)
  }

  /** Application and version of each content topic. */
  ghost predicate Names(contentTopics: seq<ContentTopic>, names: seq<(string, string)>) {
    && |names| == |contentTopics|
    && forall i :: 0 <= i < |names| ==> IsNamed(contentTopics[i], names[i])
  }

  function Digests(digest: Digest, names: seq<(string, string)>): seq<int> {
    seq(|names|, i requires 0 <= i < |names| => digest(names[i].0 + names[i].1) % 8)
  }

  lemma NamedShard(digest: Digest, contentTopic: ContentTopic, name: (string, string), clusterId: int)
    requires IsNamed(contentTopic, name)
    ensures ContentTopicToShardIndex(digest, contentTopic, 8) == Ok(digest(name.0 + name.1) % 8)
    ensures ContentTopicToPubsubTopic(digest, contentTopic, clusterId)
         == Ok("/waku/2/rs/" + Print(clusterId) + "/" + Print(digest(name.0 + name.1) % 8))
  {
    ContentTopicIff(contentTopic, name.0, name.1);
    var p :| Spells(contentTopic, name.0, name.1, p);
    hide ApplicationAndVersion, Print;
  }

  lemma {:induction false} SpelledTopics(digest: Digest, contentTopics: seq<ContentTopic>,
                                         names: seq<(string, string)>, clusterId: int)
    requires Names(contentTopics, names)
    ensures ShardIndices(digest, contentTopics) == Ok(Digests(digest, names))
    ensures PubsubTopics(digest, contentTopics, clusterId) == Ok(Printed(clusterId, Digests(digest, names)))
    decreases |contentTopics|
  {
    hide ContentTopicToShardIndex, ContentTopicToPubsubTopic, IsNamed, Print;
    if contentTopics != [] {
      var n := |contentTopics| - 1;
      assert forall i :: 0 <= i < n ==> contentTopics[..n][i] == contentTopics[i] && names[..n][i] == names[i];
      SpelledTopics(digest, contentTopics[..n], names[..n], clusterId);
      NamedShard(digest, contentTopics[n], names[n], clusterId);
      assert Digests(digest, names) == Digests(digest, names[..n]) + [digest(names[n].0 + names[n].1) % 8];
      assert Printed(clusterId, Digests(digest, names))
          == Printed(clusterId, Digests(digest, names[..n]))
             + ["/waku/2/rs/" + Print(clusterId) + "/" + Print(digest(names[n].0 + names[n].1) % 8)];
    } else {
      assert Digests(digest, names) == [] && Printed(clusterId, Digests(digest, names)) == [];
    }
  }

  /** Autosharding: the shard of each application and version, and its topic, without repetition. */
  lemma AutoConfigured(digest: Digest, config: NetworkConfig, clusterId: int, names: seq<(string, string)>)
    requires !Given(config.shards) && Given(config.contentTopics) && ClusterIs(config.clusterId, clusterId)
    requires Names(config.contentTopics.value, names)
    ensures EnsureShardingConfigured(digest, config)
         == Ok(Configured(ShardInfo(clusterId, Dedup(Digests(digest, names))),
                          Dedup(Printed(clusterId, Digests(digest, names)))))
  {
    hide Dedup, PubsubTopics, ShardIndices, Names;
    SpelledTopics(digest, config.contentTopics.value, names, clusterId);
  }

  lemma ValidTopicHasName(digest: Digest, contentTopic: ContentTopic, clusterId: int)
    returns (name: (string, string))
    requires ContentTopicToPubsubTopic(digest, contentTopic, clusterId).Ok?
    ensures IsNamed(contentTopic, name)
  {
    hide Spells;
    name := ApplicationAndVersion(contentTopic).value;
    ContentTopicIff(contentTopic, name.0, name.1);
    hide ApplicationAndVersion;
  }

  lemma {:induction false} ValidTopicsHaveNames(digest: Digest, contentTopics: seq<ContentTopic>, clusterId: int)
    returns (names: seq<(string, string)>)
    requires PubsubTopics(digest, contentTopics, clusterId).Ok?
    ensures Names(contentTopics, names)
    decreases |contentTopics|
  {
    hide ContentTopicToPubsubTopic, IsNamed;
    names := [];
    if contentTopics != [] {
      var n := |contentTopics| - 1;
      var before := ValidTopicsHaveNames(digest, contentTopics[..n], clusterId);
      var name := ValidTopicHasName(digest, contentTopics[n], clusterId);
      assert forall i :: 0 <= i < n ==> contentTopics[..n][i] == contentTopics[i];
      names := before + [name];
    }
  }

  /** Exactly which configurations are accepted: some shards, or else some content topics, all valid. */
  lemma ConfiguredIff(digest: Digest, config: NetworkConfig)
    ensures EnsureShardingConfigured(digest, config).Ok?
       <==> Given(config.shards)
            || (Given(config.contentTopics) && exists names :: Names(config.contentTopics.value, names))
  {
    var c := OrDefault(config.clusterId);
    if Given(config.shards) {
      StaticConfigured(digest, config, c);
    } else if Given(config.contentTopics) {
      if names :| Names(config.contentTopics.value, names) {
        AutoConfigured(digest, config, c, names);
      }
      if EnsureShardingConfigured(digest, config).Ok? {
        var names := ValidTopicsHaveNames(digest, config.contentTopics.value, c);
      }
    }
  }

  /** Partial configurations likewise: content topics first, then shards, each without repetition. */
  lemma PartialConfigured(digest: Digest, config: PartialConfig, clusterId: int, names: seq<(string, string)>)
    requires ClusterIs(config.clusterId, clusterId)
    ensures config.contentTopics.Has? && Names(config.contentTopics.value, names) ==>
              ShardInfoToPubsubTopics(digest, config) == Ok(Dedup(Printed(clusterId, Digests(digest, names))))
    ensures !config.contentTopics.Has? && config.shards.Has? ==>
              ShardInfoToPubsubTopics(digest, config) == Ok(Dedup(Printed(clusterId, config.shards.value)))
  {
    hide Dedup, PubsubTopics, ShardIndices, Names;
    if config.contentTopics.Has? {
      if Names(config.contentTopics.value, names) {
        SpelledTopics(digest, config.contentTopics.value, names, clusterId);
      }
    } else if config.shards.Has? {
      assert Map(TopicOf(clusterId), config.shards.value) == Printed(clusterId, config.shards.value);
    }
  }

  /** An application and version alone: the topic of their shard. */
  lemma ApplicationTopic(digest: Digest, config: PartialConfig, clusterId: int, a: string, v: string)
    requires !config.contentTopics.Has? && config.shards.Absent?
    requires config.application == Has(a) && config.version == Has(v) && ClusterIs(config.clusterId, clusterId)
    requires '/' !in a && '/' !in v && a != "" && v != ""
    ensures ShardInfoToPubsubTopics(digest, config)
         == Ok(["/waku/2/rs/" + Print(clusterId) + "/" + Print(digest(a + v) % 8)])
  {
    hide ContentTopicToShardIndex, Print;
    ContentTopicShard(digest, a, v, "default", "default");
    assert "/" + a + "/" + v + "/default/default" == "/" + a + "/" + v + "/" + "default" + "/" + "default";
  }

  // ---------------------------------------------------------------- reading topics back

  /** Every topic is of this cluster, and these are their shards. */
  ghost predicate AllOf(topics: seq<PubsubTopic>, clusterId: int, shards: seq<int>) {
    && |shards| == |topics|
    && forall i :: 0 <= i < |topics| ==> PubsubTopicToSingleShardInfo(topics[i]) == Ok((clusterId, shards[i]))
  }

  lemma {:induction false} ParsesAll(topics: seq<PubsubTopic>, infos: seq<(int, int)>)
    ensures ParseTopics(topics) == Ok(infos)
       <==> |infos| == |topics|
            && forall i :: 0 <= i < |topics| ==> PubsubTopicToSingleShardInfo(topics[i]) == Ok(infos[i])
    decreases |topics|
  {
    hide PubsubTopicToSingleShardInfo;
    if topics != [] && |infos| == |topics| {
      var n := |topics| - 1;
      ParsesAll(topics[..n], infos[..n]);
      assert infos == infos[..n] + [infos[n]];
      assert forall i :: 0 <= i < n ==> topics[..n][i] == topics[i] && infos[..n][i] == infos[i];
    }
  }

  /** Exactly which topics make up a shard info, and which one: one cluster, shards by first occurrence. */
  lemma TopicsToShardInfoIff(topics: seq<PubsubTopic>, clusterId: int, found: seq<int>)
    ensures TopicsToShardInfo(topics) == Ok(ShardInfo(clusterId, found))
       <==> topics != [] && exists shards :: AllOf(topics, clusterId, shards) && found == Dedup(shards)
  {
    hide PubsubTopicToSingleShardInfo, ParseTopics, Dedup;
    if TopicsToShardInfo(topics) == Ok(ShardInfo(clusterId, found)) {
      var infos := ParseTopics(topics).value;
      ParsesAll(topics, infos);
      assert AllOf(topics, clusterId, Shards(infos));
    }
    if shards :| topics != [] && AllOf(topics, clusterId, shards) && found == Dedup(shards) {
      var infos := OfCluster(clusterId, shards);
      ParsesAll(topics, infos);
      assert Shards(infos) == shards;
    }
  }

  /** Topic i is refused, and all before it are read. */
  ghost predicate FirstRefused(topics: seq<PubsubTopic>, i: nat, e: Failure) {
    && i < |topics| && PubsubTopicToSingleShardInfo(topics[i]) == Err(e)
    && forall j :: 0 <= j < i ==> PubsubTopicToSingleShardInfo(topics[j]).Ok?
  }

  lemma {:induction false} ParseFails(topics: seq<PubsubTopic>, e: Failure)
    ensures ParseTopics(topics) == Err(e) <==> exists i: nat :: FirstRefused(topics, i, e)
    decreases |topics|
  {
    hide PubsubTopicToSingleShardInfo;
    if topics != [] {
      var n := |topics| - 1;
      var before := topics[..n];
      ParseFails(before, e);
      assert forall i :: 0 <= i < n ==> before[i] == topics[i];
      if ParseTopics(before).Ok? {
        ParsesAll(before, ParseTopics(before).value);
        if ParseTopics(topics) == Err(e) {
          assert FirstRefused(topics, n, e);
        }
      } else {
        ParseFails(before, ParseTopics(before).error);
        if i: nat :| FirstRefused(before, i, e) {
          assert FirstRefused(topics, i, e);
        }
      }
    }
  }

  ghost predicate SeveralOf(topics: seq<PubsubTopic>, infos: seq<(int, int)>) {
    && |infos| == |topics|
    && (forall i :: 0 <= i < |topics| ==> PubsubTopicToSingleShardInfo(topics[i]) == Ok(infos[i]))
    && exists i, j :: 0 <= i < |infos| && 0 <= j < |infos| && infos[i].0 != infos[j].0
  }

  /** No topics, topics of several clusters, or the exception of the first topic that is refused. */
  lemma TopicsFail(topics: seq<PubsubTopic>, e: Failure)
    ensures TopicsToShardInfo(topics) == Err(NoTopics) <==> topics == []
    ensures TopicsToShardInfo(topics) == Err(SeveralClusters) <==> exists infos :: SeveralOf(topics, infos)
    ensures e.InvalidPubsubTopic? || e.InvalidNumber? ==>
              (TopicsToShardInfo(topics) == Err(e) <==> exists i: nat :: FirstRefused(topics, i, e))
  {
    ParseFails(topics, e);
    match ParseTopics(topics)
    case Err(e') =>
      ParseFails(topics, e');
      RefusedFor(topics, e');
      forall infos | SeveralOf(topics, infos)
        ensures false
      {
        ParsesAll(topics, infos);
      }
    case Ok(infos) =>
      ParsesAll(topics, infos);
      hide PubsubTopicToSingleShardInfo, Dedup;
      forall infos' | SeveralOf(topics, infos')
        ensures infos' == infos
      {
      }
      if i :| 0 <= i < |infos| && infos[i].0 != infos[0].0 {
        assert SeveralOf(topics, infos);
      }
  }

  lemma RefusedFor(topics: seq<PubsubTopic>, e: Failure)
    requires ParseTopics(topics) == Err(e)
    ensures e.InvalidPubsubTopic? || e.InvalidNumber?
  {
    ParseFails(topics, e);
  }

  // ---------------------------------------------------------------- configurations that are refused

  ghost predicate IsValid(contentTopic: ContentTopic) {
    exists name :: IsNamed(contentTopic, name)
  }

  /** Content topic i is not valid, and all before it are. */
  ghost predicate FirstInvalid(contentTopics: seq<ContentTopic>, i: nat) {
    && i < |contentTopics| && !IsValid(contentTopics[i])
    && forall j :: 0 <= j < i ==> IsValid(contentTopics[j])
  }

  /** A content topic that is not valid: the exception tells the empty one from the rest. */
  lemma InvalidIs(digest: Digest, contentTopic: ContentTopic, clusterId: int)
    ensures ContentTopicToPubsubTopic(digest, contentTopic, clusterId).Ok? <==> IsValid(contentTopic)
    ensures ContentTopicToPubsubTopic(digest, contentTopic, clusterId).Err? ==>
              ContentTopicToPubsubTopic(digest, contentTopic, clusterId)
                == Err(if contentTopic == "" then EmptyContentTopic else InvalidContentTopic)
  {
    forall name | IsNamed(contentTopic, name)
      ensures ContentTopicToPubsubTopic(digest, contentTopic, clusterId).Ok?
    {
      NamedShard(digest, contentTopic, name, clusterId);
    }
    if ContentTopicToPubsubTopic(digest, contentTopic, clusterId).Ok? {
      var name := ValidTopicHasName(digest, contentTopic, clusterId);
    }
    hide IsNamed, Split, ParseInt, Print;
  }

  lemma {:induction false} FirstInvalidStops(digest: Digest, contentTopics: seq<ContentTopic>, clusterId: int, i: nat)
    requires FirstInvalid(contentTopics, i)
    ensures PubsubTopics(digest, contentTopics, clusterId)
         == Err(if contentTopics[i] == "" then EmptyContentTopic else InvalidContentTopic)
    decreases |contentTopics|
  {
    hide ContentTopicToPubsubTopic, IsValid;
    var n := |contentTopics| - 1;
    var before := contentTopics[..n];
    assert forall j :: 0 <= j < n ==> before[j] == contentTopics[j];
    if i < n {
      FirstInvalidStops(digest, before, clusterId, i);
    } else {
      AllValid(digest, before, clusterId);
      InvalidIs(digest, contentTopics[n], clusterId);
    }
  }

  lemma {:induction false} AllValid(digest: Digest, contentTopics: seq<ContentTopic>, clusterId: int)
    requires forall j :: 0 <= j < |contentTopics| ==> IsValid(contentTopics[j])
    ensures PubsubTopics(digest, contentTopics, clusterId).Ok?
    decreases |contentTopics|
  {
    hide ContentTopicToPubsubTopic, IsValid;
    if contentTopics != [] {
      var n := |contentTopics| - 1;
      assert forall j :: 0 <= j < n ==> contentTopics[..n][j] == contentTopics[j];
      AllValid(digest, contentTopics[..n], clusterId);
      InvalidIs(digest, contentTopics[n], clusterId);
    }
  }

  /** What a configuration is refused for: nothing to go by, or its first content topic that is not valid. */
  lemma ConfiguredFails(digest: Digest, config: NetworkConfig)
    ensures EnsureShardingConfigured(digest, config) == Err(MissingConfiguration)
       <==> !Given(config.shards) && !Given(config.contentTopics)
    ensures !Given(config.shards) && Given(config.contentTopics) ==> forall i: nat ::
              FirstInvalid(config.contentTopics.value, i) ==>
                EnsureShardingConfigured(digest, config)
                  == Err(if config.contentTopics.value[i] == "" then EmptyContentTopic else InvalidContentTopic)
  {
    hide PubsubTopics, ShardIndices, IsValid, Dedup;
    var c := OrDefault(config.clusterId);
    if Given(config.shards) {
      StaticConfigured(digest, config, c);
    } else if Given(config.contentTopics) {
      var contentTopics := config.contentTopics.value;
      FailsForTopics(digest, contentTopics, c);
      forall i: nat | FirstInvalid(contentTopics, i)
        ensures PubsubTopics(digest, contentTopics, c)
             == Err(if contentTopics[i] == "" then EmptyContentTopic else InvalidContentTopic)
      {
        FirstInvalidStops(digest, contentTopics, c, i);
      }
    }
  }

  lemma {:induction false} FailsForTopics(digest: Digest, contentTopics: seq<ContentTopic>, clusterId: int)
    ensures PubsubTopics(digest, contentTopics, clusterId) != Err(MissingConfiguration)
    ensures PubsubTopics(digest, contentTopics, clusterId).Ok? ==> ShardIndices(digest, contentTopics).Ok?
    decreases |contentTopics|
  {
    hide ContentTopicToPubsubTopic, IsValid, ShardIndices;
    if contentTopics != [] {
      var n := |contentTopics| - 1;
      FailsForTopics(digest, contentTopics[..n], clusterId);
      InvalidIs(digest, contentTopics[n], clusterId);
    }
    if PubsubTopics(digest, contentTopics, clusterId).Ok? {
      AutoshardingTopics(digest, contentTopics, clusterId);
    }
  }
}
