# A model of js-waku's codecs, discovery, store paging and schedulers

js-waku is a TypeScript client of the Waku network. This project models the parts of it whose
behaviour is decided by its own code and proves what those parts are for, for every input,
every history of events and every choice the network makes.

- **Wire codecs.** `Bytes`, `Varint`, `Wire` and `Decoding` hold the Protocol Buffers wire
  format (sections "Base 128 Varints", "Signed Integers" and "Message Structure" of its encoding
  specification): a grammar of fields with every spelling of every varint, groups included, a
  reader's view of the bytes, and the decoding loop that all generated codecs share. `Messages`
  gives each message its decoder step, the meaning of one field, and the fields its encoder
  writes. `ProtoIO` is the imperative code: a writer whose buffer grows in place, a reader whose
  position advances, one method per codec. `Codecs` proves that every decoder computes the
  meaning of every correctly typed stream, `RoundTrips` that decoding undoes encoding, `Encodings`
  what an encoding looks like byte by byte and that none is shorter, `Streams` what each property
  of a decoded message comes from, and `Truncation` which prefixes of a stream decode.
- **Other codecs.** `RelayShardCodec` (51/WAKU2-RELAY-SHARDING, `rs` and `rsv`),
  `PayloadEnvelope` (26/WAKU2-PAYLOAD), `MultiaddrsCodec` (31/WAKU2-ENR) and, over `Text`,
  `Sharding`: pubsub topic strings against shard info.
- **Discovery.** `FetchNodes` holds both capability-driven fetch loops, `DnsSearch` and
  `DnsDiscovery` the randomized descent of an EIP-1459 tree with its cache and visited names,
  `PeerDiscovery` the two together.
- **Store.** `StorePagination` is the cursor loop against a store that pages its log.
- **State machines.** `DialScheduler` and `ConnectionManager` (the dial queue),
  `ReceiverMonitor` (ping failures), `FilterDelivery` (filter callbacks) and `RelayObservers`
  (relay routing). An atomic step is a stretch of code between two `await`s.

Code that the source writes imperatively is a class or a method here, proved against a function
of the same inputs; the lemmas are about those functions.

## Where the code and a statement about it differ

- The relay says that observers under the key `""` are always called
  (`packages/relay/src/relay.ts:58-60`). They never are: `RelayObservers.EmptyTopicNeverReached`.
- The payload envelope has two flag bits for the width of its size field. From 2^24 bytes on the
  payload does not come back, up to 2^32 bytes because nothing is returned, and from there on the
  envelope no longer fills blocks: `PayloadEnvelope.PayloadRoundTripIff`,
  `PayloadEnvelope.LargePayloadIsUndefined`, `PayloadEnvelope.EnvelopeFillsBlocksIff`.
- A dial queue can be stranded with nothing in flight to pop it, but only by refused re-checks, as
  many as there are dial slots: `DialScheduler.StrandsIff`.
- The visited set does not by itself stop a DNS descent, as the comment on random paths suggests
  (`packages/discovery/src/dns/dns.ts:189-192`): it is consulted at branches only, so a cycle of
  root records is followed for ever. `DnsSearch.DescentFromTerminatesIff` says exactly when the
  descent from a tree domain ends.
- `_search` documents null for a record that does not parse, but returns the decoder's promise
  without awaiting it, so that a search started at such a record rejects; a search that passes
  through a parent gives null. `DnsSearch.RejectedIff` says exactly when.
- The store loop leaves early after a page longer than 100 messages that is shorter than the
  limit. No store that keeps to 100 messages a page triggers this; `StorePagination.CompleteIff`
  says exactly which stores lose messages to it.
- Both fetch loops are documented alike. They are the same exactly when no node announces, under
  an id answered before, a capability that its first answer lacked: `FetchNodes.VersionsAgreeIff`.
- Renewing a peer that is already being renewed returns early but still drops the other
  attempt's lock, so two renewals of one peer can be in flight at once:
  `ReceiverMonitor.RenewalsOverlapIff` says exactly when, `ReceiverMonitor.ThreeCallsOverlap` how.
- The gossip validator and the relay decode a message differently. A validated message with a
  misframed nested proof is routed on a topic its full decode does not have:
  `RelayObservers.MisframedIsMisrouted`.

## Model

| member | source | states |
|---|---|---|
| RoundTrips.WakuRoundTrip | packages/proto/src/generated/message.ts:150-246 | decoding inverts encoding for every WakuMessage: absent and empty optional fields stay apart, negative timestamps and the nested proof come back |
| RoundTrips.WakuRoundTripWithUnknown | packages/proto/src/generated/message.ts:195-245 | any stream that is the encoding of a message once its unknown fields are stripped, inside the nested proof too, still decodes to that message |
| RoundTrips.WakuRoundTripWithInserted | packages/proto/src/generated/message.ts:237-240 | in particular any unknown fields may stand between any two fields of an encoding |
| RoundTrips.ResponseRoundTrip | packages/proto/src/generated/store_v3.ts:268-352 | decoding inverts encoding for every store response, three levels deep, with its key-values in order however many there are |
| RoundTrips.ResponseRoundTripWithUnknown | packages/proto/src/generated/store_v3.ts:305-351 | the same with unknown fields inserted at any level of the response |
| RoundTrips.ResponseRoundTripWithInserted | packages/proto/src/generated/store_v3.ts:343-346 | in particular any unknown fields may stand between any two fields of an encoded response |
| RoundTrips.ProofWritten | packages/proto/src/generated/message.ts:26-68 | the fields written for a proof are correctly typed and mean exactly that proof |
| RoundTrips.WakuWritten | packages/proto/src/generated/message.ts:152-194 | the fields written for a message are correctly typed and mean exactly that message, omitted defaults included |
| RoundTrips.KeyValueWritten | packages/proto/src/generated/store_v3.ts:22-45 | the fields written for a key-value mean exactly that key-value |
| RoundTrips.ListWritten | packages/proto/src/generated/store_v3.ts:290-295 | the repeated field means its elements in their order, for lists of any length |
| RoundTrips.ResponseWritten | packages/proto/src/generated/store_v3.ts:270-304 | the fields written for a response mean exactly that response |
| Encodings.ProofLayout | packages/proto/src/generated/message.ts:26-69 | the exact bytes of an encoded proof: each field that is not empty behind its literal tag and length, in the order of their numbers, and nothing for an empty one |
| Encodings.WakuLayout | packages/proto/src/generated/message.ts:152-195 | the exact bytes of an encoded message: literal tags, lengths, zigzag timestamp, ephemeral bit, and nothing for an empty payload or content topic or an absent field |
| Encodings.KeyValueLayout | packages/proto/src/generated/store_v3.ts:22-45 | the exact bytes of an encoded key-value, its message delimited inside |
| Encodings.ResponseLayout | packages/proto/src/generated/store_v3.ts:270-305 | the exact bytes of an encoded response, with two-byte tags and one delimited key-value for each element |
| Encodings.WakuEncodingIsShortest | packages/proto/src/generated/message.ts:152-195 | of all correctly typed streams that decode to a message, in any order, with any spellings, repeats and unknown fields, none has fewer fields or fewer bytes than its encoding |
| Encodings.ResponseEncodingIsShortest | packages/proto/src/generated/store_v3.ts:270-305 | the same for responses, at every depth |
| Codecs.WakuDecodesStream | packages/proto/src/generated/message.ts:195-245 | the decoder succeeds on every stream of correctly typed fields, in any order, with repeats and unknown fields, and a later field wins over an earlier one |
| Codecs.ResponseDecodesStream | packages/proto/src/generated/store_v3.ts:305-351 | the same for responses, where repeated key-values accumulate instead |
| Streams.WakuSays | packages/proto/src/generated/message.ts:201-244 | on every correctly typed stream each property of the decoded message is what the last field of its number says, and the default when there is no such field |
| Streams.ProofSays | packages/proto/src/generated/message.ts:80-121 | the same for the seven properties of a nested proof |
| Streams.KeyValueSays | packages/proto/src/generated/store_v3.ts:48-75 | the same for key-values |
| Streams.ResponseSays | packages/proto/src/generated/store_v3.ts:311-350 | the same for responses, whose list holds what each field 20 says, all of them and in order |
| Truncation.WakuPrefix | packages/proto/src/generated/message.ts:201-244 | for every correctly typed stream and every length, the prefix of that length decodes if and only if it ends between two fields, and then to what the fields before say; cut anywhere else, in a tag, a length, a nested proof or an unknown group, both decoders throw |
| Truncation.ResponsePrefix | packages/proto/src/generated/store_v3.ts:311-350 | the same for responses, three levels deep |
| Truncation.SkipCut | packages/proto/src/generated/message.ts:237-240 | skipping a field of any wire type in which the bytes end throws, nested groups included |
| Codecs.TopicOnlyAgrees | packages/proto/src/generated/topic_only_message.ts:32-55 | on every stream of correctly typed WakuMessage fields the partial decoder succeeds with exactly the content topic the full decoder gives |
| Codecs.FramedAgrees | packages/proto/src/generated/topic_only_message.ts:32-55 | on any bytes at all whose known fields have the wire types they call for and whose nested proofs end where their lengths say, both decoders throw or both succeed with one content topic |
| Codecs.TypedIsFramed | packages/proto/src/generated/message.ts:195-245 | every correctly typed stream is framed in that sense |
| Codecs.MisframedProofDisagrees | packages/proto/src/generated/topic_only_message.ts:47-50 | framing is needed: a message whose full decode has the content topic "X", a payload and a proof gives the partial decoder any 17-byte topic instead |
| Codecs.WakuStep | packages/proto/src/generated/message.ts:203-242 | one turn of the loop consumes a correctly typed field exactly and has its effect, wherever it lies in the buffer |
| Codecs.ProofStep | packages/proto/src/generated/message.ts:82-119 | the same for the nested proof |
| Codecs.TopicStep | packages/proto/src/generated/topic_only_message.ts:39-52 | the same for the partial decoder, which skips every field but one |
| Codecs.KeyValueStep | packages/proto/src/generated/store_v3.ts:50-73 | the same for key-values with their nested message |
| Codecs.ResponseStep | packages/proto/src/generated/store_v3.ts:313-348 | the same for responses with their two-byte tags |
| Decoding.LoopFolds | packages/proto/src/generated/message.ts:201-244 | any such loop stops exactly at the end it was given with the meaning of the fields in between, whatever surrounds them |
| Decoding.FoldIgnoresUnknown | packages/proto/src/generated/message.ts:237-240 | stripping the fields a message type does not know, at every depth, does not change what a stream means |
| Wire.SkipPasses | packages/proto/src/generated/message.ts:237-240 | skipping passes over exactly one well-formed field of any wire type, nested groups included |
| Varint.ReadFinds | packages/proto/src/generated/message.ts:204-204 | every spelling of a varint of up to ten bytes is read back whole, cut to 64 or 32 bits |
| Varint.GroupsConcat | packages/proto/src/generated/message.ts:204-204 | a spelling stands for its seven-bit groups, the least significant first, whatever the top bits are |
| Varint.EncodeReads | packages/proto/src/generated/message.ts:167-170 | what the writer spells is a varint of at most ten bytes that reads back as the number |
| Varint.ZigZagInverse | packages/proto/src/generated/message.ts:172-175 | the signed encoding is one-to-one between signed and unsigned 64-bit integers |
| Varint.ReadIff | packages/proto/src/generated/message.ts:204-204 | a number is read at a position exactly when one of its spellings of at most ten bytes stands there, and the position moves behind it |
| Varint.EncodeIsShortest | packages/proto/src/generated/message.ts:167-170 | of all spellings of a number the writer's has the fewest bytes |
| Varint.ZigZagOrder | packages/proto/src/generated/message.ts:172-175 | numbers closer to zero get smaller codes, and exactly the negative ones odd codes |
| ProtoIO.EncodeProofMessage | packages/proto/src/generated/message.ts:26-69 | appends the proof's fields to the writer, behind their length unless told not to, and leaves what was there |
| ProtoIO.EncodeWakuMessage | packages/proto/src/generated/message.ts:152-195 | appends the message's fields with its nested proof delimited |
| ProtoIO.EncodeKeyValueMessage | packages/proto/src/generated/store_v3.ts:22-45 | appends the key-value's fields with its nested message delimited |
| ProtoIO.EncodeList | packages/proto/src/generated/store_v3.ts:290-295 | the loop appends one delimited key-value for each element, in order |
| ProtoIO.EncodeResponseMessage | packages/proto/src/generated/store_v3.ts:270-305 | appends the response's fields in order |
| ProtoIO.DecodeProofMessage | packages/proto/src/generated/message.ts:69-122 | the loop over the reader ends with the value and position the decoding loop has on the same bytes, or throws where it does |
| ProtoIO.DecodeWakuMessage | packages/proto/src/generated/message.ts:195-245 | the same for messages, decoding the nested proof from the same reader |
| ProtoIO.DecodeTopicMessage | packages/proto/src/generated/topic_only_message.ts:32-55 | the same for the partial decoder |
| ProtoIO.DecodeKeyValueMessage | packages/proto/src/generated/store_v3.ts:45-76 | the same for key-values |
| ProtoIO.DecodeResponseMessage | packages/proto/src/generated/store_v3.ts:305-351 | the same for responses, pushing onto the list |
| ProtoIO.WakuToBytes | packages/proto/src/generated/message.ts:251-253 | a whole encode gives the bytes the round trip speaks of |
| ProtoIO.WakuFromBytes | packages/proto/src/generated/message.ts:255-257 | a whole decode gives the value the round trip speaks of |
| ProtoIO.TopicFromBytes | packages/proto/src/generated/topic_only_message.ts:65-67 | a whole partial decode gives the topic that routing speaks of |
| ProtoIO.ResponseToBytes | packages/proto/src/generated/store_v3.ts:357-359 | a whole encode of a response gives the bytes the round trip speaks of |
| ProtoIO.ResponseFromBytes | packages/proto/src/generated/store_v3.ts:361-363 | a whole decode of a response gives the value the round trip speaks of |
| DialScheduler.InvHolds | packages/core/src/lib/connection_manager.ts:222-269 | after every history: each ticket is in exactly one place, the active count equals the sessions in progress and stays within the limit, no session dials more often than allowed, and a waiting queue is covered by dials, re-checks in flight or refused re-checks |
| DialScheduler.StrandsIff | packages/core/src/lib/connection_manager.ts:329-340 | for all limits: some history strands the queue within r refused re-checks if and only if there are at most r dial slots and peers can wait at all |
| DialScheduler.QueueCanStrand | packages/core/src/lib/connection_manager.ts:375-384 | for all limits under which peers can wait there is a history that leaves peers queued with nothing checking, dialing or re-checking, after exactly one refused re-check for each slot |
| DialScheduler.NothingWaits | packages/core/src/lib/connection_manager.ts:225-225 | with slots but no dial attempts every session ends at once and the queue stays empty |
| ConnectionManager.GivesUpAfterAll | packages/core/src/lib/connection_manager.ts:225-265 | over every history a peer whose dials all fail is given up only after exactly the number of dials allowed |
| DialScheduler.EveryHistoryQuiesces | packages/core/src/lib/connection_manager.ts:225-265 | the checks and dials answered in any history number at most three more than the allowed dials for each discovered peer, so the scheduler always comes to rest |
| DialScheduler.OnePlaceKept | packages/core/src/lib/connection_manager.ts:375-384 | every step keeps each ticket in exactly one of checking, re-checking, queued, dialing, ended and refused |
| DialScheduler.CountsKept | packages/core/src/lib/connection_manager.ts:267-269 | every step keeps the active count exact and the queue covered; a freed slot pays for the peer it pops |
| DialScheduler.DialsKept | packages/core/src/lib/connection_manager.ts:225-265 | every step keeps the number of dials of each session within the limit |
| ConnectionManager.ConnectionManager.ResumeAttempt | packages/core/src/lib/connection_manager.ts:376-384 | the stretch after a peer was checked updates counter and queue as the scheduler's step does, and says which peer is popped |
| ConnectionManager.ConnectionManager.ResumeDial | packages/core/src/lib/connection_manager.ts:225-269 | the stretch after a dial succeeds or fails updates attempts, counter and queue as the scheduler's step does |
| ConnectionManager.ConnectionManager.LeaveDialPeer | packages/core/src/lib/connection_manager.ts:267-269 | releases one slot and takes the longest-waiting peer exactly when there is one and a slot is free |
| FetchNodes.FetchNodesUntilCapabilitiesFulfilled | packages/discovery/src/dns/fetch_nodes.ts:11-57 | the list loop returns the peers, after the calls, that its recursive reading gives; the rows below say of that which answers are accepted, how many calls it takes and whom it leaves out |
| FetchNodes.YieldNodesUntilCapabilitiesFulfilled | packages/discovery/src/dns/fetch_nodes.ts:64-109 | the generator loop yields the peers, after the calls, that its recursive reading gives, which the rows below characterise likewise |
| FetchNodes.SatisfiedIff | packages/discovery/src/dns/fetch_nodes.ts:111-121 | satisfied means for every capability as many as wanted |
| FetchNodes.HelpsIff | packages/discovery/src/dns/fetch_nodes.ts:148-165 | while not satisfied, a node helps if and only if it offers some capability of which fewer are there than wanted |
| FetchNodes.ListAcceptsIff | packages/discovery/src/dns/fetch_nodes.ts:40-54 | whatever is wanted and held, the list loop appends an answer and counts its capabilities if and only if it has an id, no accepted peer has that id, and it offers something still missing; otherwise nothing changes |
| FetchNodes.GeneratorAcceptsIff | packages/discovery/src/dns/fetch_nodes.ts:93-107 | the generator likewise, new meaning an id never answered before, and every new id is remembered |
| FetchNodes.NobodyOverlooked | packages/discovery/src/dns/fetch_nodes.ts:36-57 | when the list loop ends, no answer whose id was not accepted offers anything still missing, whenever it came |
| FetchNodes.NobodyOverlookedByGenerator | packages/discovery/src/dns/fetch_nodes.ts:89-108 | nor does the first answer of any id when the generator ends |
| FetchNodes.CountsAreOffers | packages/discovery/src/dns/fetch_nodes.ts:135-140 | the counts kept are, for each capability, the number of accepted peers that offer it |
| FetchNodes.TakesTheOne | packages/discovery/src/dns/fetch_nodes.ts:36-108 | one wanted capability and one answer that offers it: both versions take exactly that node in one call |
| FetchNodes.VersionsAgreeIff | packages/discovery/src/dns/fetch_nodes.ts:36-108 | for everything that can be wanted and tolerated the two versions accept the same records in the same order after the same calls, if and only if no answer announces a capability that the first answer with its id lacks |
| FetchNodes.VersionsAgree | packages/discovery/src/dns/fetch_nodes.ts:36-108 | on such answers they agree call by call, however ids repeat |
| FetchNodes.ConsistentAnswersAgree | packages/discovery/src/dns/fetch_nodes.ts:148-181 | in particular when equal ids have equal capabilities, because what is missing only shrinks |
| FetchNodes.VersionsDifferOnGain | packages/discovery/src/dns/fetch_nodes.ts:94-95 | on any other answers they differ: wanting that one capability once more than there were calls before, the list version has the node and the generator does not |
| FetchNodes.TurnSound | packages/discovery/src/dns/fetch_nodes.ts:40-54 | an accepted peer is new and strictly lowers what is missing in all; a rejected one changes nothing |
| FetchNodes.GeneratorTurnSound | packages/discovery/src/dns/fetch_nodes.ts:93-107 | the same of the generator, whose accepted ids are among those it has seen |
| FetchNodes.FetchIsBounded | packages/discovery/src/dns/fetch_nodes.ts:23-57 | at most sum plus tolerance calls, at most sum peers with different ids, counts equal to their capabilities, and an end only when satisfied or out of calls |
| FetchNodes.GeneratorIsBounded | packages/discovery/src/dns/fetch_nodes.ts:76-108 | the same bounds for the generator on every sequence of answers, whether or not the versions agree on it |
| DnsDiscovery.DnsNodeDiscovery.GetTXTRecord | packages/discovery/src/dns/dns.ts:148-174 | a cached entry costs no query; a successful query is cached, a failed one leaves the cache alone |
| DnsDiscovery.DnsNodeDiscovery.SelectRandomPath | packages/discovery/src/dns/dns.ts:194-215 | counting the circular references finds whether an unvisited branch is left, and one such branch is drawn |
| DnsDiscovery.DnsNodeDiscovery.SearchTree | packages/discovery/src/dns/dns.ts:102-140 | on every zone the recursive search has the outcome, cache and visits of the search function, or goes deeper than the given depth exactly when that does; the rows of DnsSearch say which record that outcome holds |
| DnsDiscovery.DnsNodeDiscovery.Descend | packages/discovery/src/dns/dns.ts:118-133 | a recursive search awaited inside the `try` turns a rejection into null |
| DnsSearch.SelectRandomPath | packages/discovery/src/dns/dns.ts:194-215 | a branch is chosen among the unvisited ones, and none exactly when all are visited |
| DnsSearch.SearchEnds | packages/discovery/src/dns/dns.ts:102-140 | where no cycle of root records can be reached, the number of names not yet visited, then the roots still to follow, bounds the depth of every search |
| DnsSearch.SearchesEnd | packages/discovery/src/dns/dns.ts:52-56 | all searches that share a context end within the depth that is enough for the first |
| DnsSearch.RootCycleNeverEnds | packages/discovery/src/dns/dns.ts:116-118 | a search that enters a cycle of root records goes on for ever if every query is answered |
| DnsSearch.DescentFromTerminatesIff | packages/discovery/src/dns/dns.ts:52-56 | for a given start, the tree domain: on a finite zone every search from it ends, for all failures and draws, if and only if no cycle of root records can be reached from it by roots and branches |
| DnsSearch.FollowPath | packages/discovery/src/dns/dns.ts:119-122 | for every path to such a cycle there are draws that take a search along it and into the cycle |
| DnsSearch.FoundIsThere | packages/discovery/src/dns/dns.ts:123-124 | a search finds a record only if that very record stands at a name to which roots and branches lead from where the search started |
| DnsSearch.FollowToRecord | packages/discovery/src/dns/dns.ts:119-122 | with every query answered the draws along any simple path of unvisited names take the search to exactly the record at its end |
| DnsSearch.CanFindIff | packages/discovery/src/dns/dns.ts:102-140 | on every zone, for some failures and draws a search from the tree domain finds a given record if and only if roots and branches lead to it |
| DnsSearch.AllFoundAreThere | packages/discovery/src/dns/dns.ts:52-56 | the same holds of every search that shares a context with others |
| DnsSearch.RejectedIff | packages/discovery/src/dns/dns.ts:123-124 | a search rejects exactly when it starts at a record that does not decode and the record is cached or its query answered |
| DnsSearch.SingleRootHasNoCycle | packages/discovery/src/dns/dns.ts:116-118 | a zone whose only root is at the tree domain and does not name it meets that condition |
| DnsSearch.SearchKeeps | packages/discovery/src/dns/dns.ts:107-124 | a search keeps visits within the cache, never forgets one, and resolves no name over the network a second time |
| DnsSearch.SearchesKeep | packages/discovery/src/dns/dns.ts:52-56 | over all searches of one context visited names are cached, no name is resolved over the network twice, and no name below a branch is entered twice |
| DnsSearch.FoundBelowBranch | packages/discovery/src/dns/dns.ts:119-122 | a search that finds a record below a branch uses up one child of that branch |
| DnsSearch.RecordsBounded | packages/discovery/src/dns/dns.ts:52-56 | however many searches share a context, at most as many records are found as the top branch has distinct children |
| PeerDiscovery.PeersBoundedByTree | packages/discovery/src/dns/dns.ts:40-67 | whatever is wanted and however much tolerance there is, getPeers returns peers with different ids and at most one for each distinct child of the top branch |
| PeerDiscovery.YieldedBoundedByTree | packages/discovery/src/dns/dns.ts:77-96 | the same of the peers getNextPeer yields, on any answers |
| PeerDiscovery.AcceptedAreFound | packages/discovery/src/dns/dns.ts:52-56 | the list loop never accepts more peers than its searches found records |
| PeerDiscovery.YieldedAreFound | packages/discovery/src/dns/dns.ts:89-93 | nor does the generator |
| PeerDiscovery.PeersAreListed | packages/discovery/src/dns/dns.ts:40-67 | every peer getPeers returns is what a record of the tree says to which roots and branches lead from the domain |
| PeerDiscovery.YieldedAreListed | packages/discovery/src/dns/dns.ts:77-96 | the same of every peer getNextPeer yields |
| PeerDiscovery.EveryRecordCanBeReturned | packages/discovery/src/dns/dns.ts:40-96 | for every record that can be reached, with an id and some capability, there are draws under which asking for one node of that capability gives exactly it, from both |
| StorePagination.QueryPerPage | packages/core/src/lib/store/index.ts:52-134 | the cursor loop terminates; all items yielded, oldest first, are those of an unbroken stretch of the matching log and, from a store with pages of at most 100 and every stream opened, of the whole log: item k is the message of entry k given to the decoder of its own content topic with its own pubsub topic, and undefined exactly when there is no message, no content topic or no decoder for it; it fails exactly on an error answer to its first request |
| StorePagination.YieldedIsDecoded | packages/core/src/lib/store/index.ts:100-117 | the same of the loop's recursive reading, for both directions of paging |
| StorePagination.MatchingIs | packages/interfaces/src/store.ts:54-76 | what the modelled store owes to a query: without a cursor the whole log, with one what lies beyond it in the direction of paging, and an error if it does not hold the cursor |
| StorePagination.ServedIs | packages/interfaces/src/store.ts:54-76 | one page of it: as much as asked for or the default when nothing is, never more than the cap, from the end that the paging direction comes to first |
| StorePagination.CursorAdvances | packages/core/src/lib/store/index.ts:119-125 | the query from the new cursor matches exactly what the last page left over, in both directions |
| StorePagination.CompleteIff | packages/core/src/lib/store/index.ts:127-133 | the pages add up to the whole matching log unless the store's page cap lies strictly between 100 and the limit and a page is not enough |
| StorePagination.ConformingStoreIsComplete | packages/interfaces/src/store.ts:54-76 | a store with pages of at most 100 messages is read completely: forward pages in order, backward pages in reverse |
| StorePagination.PagesAreContiguous | packages/core/src/lib/store/index.ts:59-65 | wherever the loop stops, what it yielded is an unbroken stretch from the cursor on |
| RelayShardCodec.EncodeRelayShard | packages/utils/src/common/relay_shard_codec.ts:36-60 | the buffer holds the cluster and either each shard in its two bytes or a vector in which exactly the listed bits are set; it throws exactly when a vector gets a shard of 1024 or more |
| RelayShardCodec.SetBits | packages/utils/src/common/relay_shard_codec.ts:44-50 | after the loop the vector has exactly the bits of the listed shards and the cluster is untouched |
| RelayShardCodec.SetList | packages/utils/src/common/relay_shard_codec.ts:54-56 | each shard lies big-endian in its own two bytes and the header is untouched |
| RelayShardCodec.DecodeRelayShard | packages/utils/src/common/relay_shard_codec.ts:3-34 | the loops read the set bits in increasing order, or the indices in list order, or report the data too short |
| RelayShardCodec.DecodesIff | packages/utils/src/common/relay_shard_codec.ts:3-34 | exactly which bytes are read and as what: 130 bytes are the increasing list of the set bits, counted from the highest of each byte; otherwise a big-endian cluster, a count and as many big-endian shards; the two errors are told apart by length alone |
| RelayShardCodec.ListRoundTrip | packages/utils/src/common/relay_shard_codec.ts:51-57 | below 64 shards decoding returns the same list reduced to 16 bits, and the length is never that of a vector |
| RelayShardCodec.VectorRoundTrip | packages/utils/src/common/relay_shard_codec.ts:44-50 | from 64 shards on decoding returns the increasing list of the same set |
| RelayShardCodec.RoundTripIff | packages/utils/src/common/relay_shard_codec.ts:3-60 | for all input the value comes back unchanged exactly when its numbers fit 16 bits and a long list is increasing |
| RelayShardCodec.SecondRoundTripChangesNothing | packages/utils/src/common/relay_shard_codec.ts:3-60 | what was decoded once survives encoding and decoding again |
| PayloadEnvelope.ComputeSizeOfPayloadSizeField | packages/message-encryption/src/encryption.ts:130-136 | the loop over fractions counts the base-256 digits of the length |
| PayloadEnvelope.SizeFieldLeast | packages/message-encryption/src/encryption.ts:130-136 | the size field has the fewest bytes that can hold the length |
| PayloadEnvelope.SizeFieldReads | packages/message-encryption/src/encryption.ts:24-39 | the little-endian size field of a payload below 2^24 bytes has at most three bytes and reads back as its length |
| PayloadEnvelope.RunPreCipher | packages/message-encryption/src/encryption.ts:178-213 | building the envelope in place gives flags, size field, payload and padding, signed last over exactly those; with random bytes that are not all zero it always returns, and below 2^24 bytes postCipher gives back the payload and the signer's public key |
| PayloadEnvelope.PreCipherReturnsIff | packages/message-encryption/src/encryption.ts:138-147 | for every payload, key and random bytes preCipher returns if and only if the bytes fill the block and are at most three or not all zero |
| PayloadEnvelope.EnvelopeLayout | packages/message-encryption/src/encryption.ts:178-213 | where everything lies in an envelope below 2^24 bytes: size-field width and signed bit in the flags, the length little-endian, payload, padding, and the signature over all before it |
| PayloadEnvelope.LargePayloadIsUndefined | packages/message-encryption/src/encryption.ts:225-229 | from 2^24 up to 2^32 bytes postCipher of the envelope returns nothing |
| PayloadEnvelope.PayloadRoundTripIff | packages/message-encryption/src/encryption.ts:178-246 | whatever the padding and whether signed or not, the payload comes back exactly when it is shorter than 2^24 bytes |
| PayloadEnvelope.SignatureRoundTrip | packages/message-encryption/src/encryption.ts:225-246 | the hash recomputed from the envelope is the hash that was signed, and the signer's public key is recovered |
| PayloadEnvelope.UnsignedRoundTrip | packages/message-encryption/src/encryption.ts:225-246 | an unsigned envelope gives its payload and no signature |
| PayloadEnvelope.EnvelopeFillsBlocksIff | packages/message-encryption/src/encryption.ts:186-198 | the envelope is a multiple of 256 bytes exactly when the payload is shorter than 2^32 bytes |
| Text.ParsePrint | packages/utils/src/common/sharding/index.ts:117-118 | parseInt undoes decimal printing for every integer |
| Text.PrintIsDecimal | packages/utils/src/common/sharding/index.ts:89-89 | printing is canonical: digits alone, after a minus sign when negative, with no zero in front of others |
| Text.ParseWithin | packages/utils/src/common/sharding/index.ts:119-120 | parseInt skips white space before a number and stops behind it, at anything but a digit or an x |
| Text.HexDigits | packages/utils/src/common/sharding/index.ts:119-120 | after 0x parseInt reads hexadecimal digits, as many as there are |
| Text.SplitFirst | packages/utils/src/common/sharding/index.ts:109-109 | splitting takes off everything before the first separator and goes on with the rest |
| Text.SplitIff | packages/utils/src/common/sharding/index.ts:109-109 | a split is the one list of parts without separators that the separators join to the string |
| Text.DedupMap | packages/utils/src/common/sharding/index.ts:86-92 | removing duplicates commutes with any one-to-one renaming |
| Text.DedupOrder | packages/utils/src/common/sharding/index.ts:85-92 | removing duplicates keeps every value once, in the order of first occurrence |
| Sharding.PubsubTopicsToShardInfo | packages/utils/src/common/sharding/index.ts:131-162 | the sets filled by the loop give the common cluster and the shards in order of first occurrence, or the right error |
| Sharding.TopicParses | packages/utils/src/common/sharding/index.ts:106-129 | a topic printed from a cluster and a shard is read back as that pair, negative numbers included |
| Sharding.TopicParsesIff | packages/utils/src/common/sharding/index.ts:106-129 | exactly which strings are read and as what: six parts, the middle three waku, 2 and rs, and two numbers |
| Sharding.TopicFails | packages/utils/src/common/sharding/index.ts:111-123 | which of the two exceptions any other string gives: the shape comes first, then the numbers |
| Sharding.TopicsToShardInfoIff | packages/utils/src/common/sharding/index.ts:131-162 | exactly which lists make up a shard info: not empty, every topic read and of that one cluster, its shards in order of first occurrence |
| Sharding.TopicsFail | packages/utils/src/common/sharding/index.ts:137-151 | no topics, several clusters, or the exception of the first topic refused, each exactly when |
| Sharding.ShardsFromPairs | packages/utils/src/common/sharding/index.ts:152-156 | the shards read back out of the set of strings are the shards without repetition |
| Sharding.TopicsRoundTrip | packages/utils/src/common/sharding/index.ts:70-162 | for every cluster and list of shards, reading back the printed topics gives the configured cluster, 1 when none is, and the shards up to first-occurrence deduplication; the empty list is an error |
| Sharding.AutoshardingTopics | packages/utils/src/common/sharding/index.ts:250-261 | the topics derived from content topics are the topics of their shard indices |
| Sharding.ContentTopicIff | packages/utils/src/common/sharding/index.ts:190-232 | exactly which content topics are valid and with which application and version: five parts, or six with a generation that is not positive, the last four not empty |
| Sharding.ContentTopicShard | packages/utils/src/common/sharding/index.ts:238-248 | with and without generation 0 a content topic goes to the digest of application and version, modulo 8 |
| Sharding.ApplicationTopic | packages/utils/src/common/sharding/index.ts:93-100 | an application and version alone, not empty and without separators, give the one topic of their shard in the configured cluster, 1 when none is |
| Sharding.PartialConfigured | packages/utils/src/common/sharding/index.ts:70-92 | content topics first, then shards, give their topics without repetition in the configured cluster, 1 when none is |
| Sharding.StaticConfigured | packages/utils/src/common/sharding/index.ts:319-332 | static sharding keeps the configured cluster, 1 when none is, and exactly the configured shards, and its topics are those printed from them without repetition |
| Sharding.AutoConfigured | packages/utils/src/common/sharding/index.ts:334-349 | autosharding gives the shards of the content topics' applications and versions and the topics printed from them, both by first occurrence, in the configured cluster, 1 when none is |
| Sharding.ConfiguredIff | packages/utils/src/common/sharding/index.ts:313-352 | a configuration is accepted if and only if it has shards, or else content topics that are all valid |
| Sharding.ConfiguredFails | packages/utils/src/common/sharding/index.ts:313-354 | a configuration with neither is refused as missing, and one with content topics for the first that is not valid, the empty one told from the rest |
| Sharding.ConfiguredAgrees | packages/utils/src/common/sharding/index.ts:313-348 | for static sharding and autosharding alike the returned topics are those of the returned shard info, in order, and reading them back gives its shards; which shard info that is, StaticConfigured and AutoConfigured say |
| MultiaddrsCodec.TotalLength | packages/enr/src/multiaddrs_codec.ts:29-32 | the length computed beforehand is the length of what is laid out |
| MultiaddrsCodec.EncodeMultiaddrs | packages/enr/src/multiaddrs_codec.ts:28-50 | the buffer is filled exactly with every address behind its length, and any address with a peer id is refused |
| MultiaddrsCodec.DecodeMultiaddrs | packages/enr/src/multiaddrs_codec.ts:6-26 | decoding any bytes terminates with the blobs laid out in them, the last one cut where the bytes end, or with the error of the first bad one |
| MultiaddrsCodec.DecodesIff | packages/enr/src/multiaddrs_codec.ts:6-26 | exactly which bytes are decoded and as what: valid blobs, each behind its big-endian length, of which only the last may be shorter than its length says |
| MultiaddrsCodec.DecodeStops | packages/enr/src/multiaddrs_codec.ts:6-26 | behind valid blobs a lone byte is out of bounds, and the first blob that is not valid stops decoding |
| MultiaddrsCodec.RoundTripIff | packages/enr/src/multiaddrs_codec.ts:6-50 | decoding gives back exactly the list encoded if and only if every address is shorter than 65536 bytes |
| ReceiverMonitor.ReceiverReliabilityMonitor.HandlePingResult | packages/sdk/src/reliability_monitor/receiver.ts:57-80 | a success or an attempt forgets the peer's failures, any other failure adds one; an attempt is made exactly when the limit is reached |
| ReceiverMonitor.ReceiverReliabilityMonitor.StartRenewal | packages/sdk/src/reliability_monitor/receiver.ts:162-171 | up to the first await: an unlocked peer is locked and its renewal in flight; a locked one returns early and loses the lock that another call holds |
| ReceiverMonitor.ReceiverReliabilityMonitor.FinishRenewal | packages/sdk/src/reliability_monitor/receiver.ts:171-191 | from there to the end: a renewal that completes forgets the failures, and the lock is dropped whoever holds it by then |
| ReceiverMonitor.ReceiverReliabilityMonitor.RenewAndSubscribePeer | packages/sdk/src/reliability_monitor/receiver.ts:162-191 | without interruption the two stretches together forget the failures exactly when a new peer was found, subscribed to and probed |
| ReceiverMonitor.RenewalsOverlapIff | packages/sdk/src/reliability_monitor/receiver.ts:162-191 | over every history of calls and ends, two renewals of one peer are in flight at once if and only if some renewal in flight sees two further calls for its peer |
| ReceiverMonitor.ThreeCallsOverlap | packages/sdk/src/reliability_monitor/receiver.ts:167-190 | three calls for one peer, none of them ended, put two renewals in flight |
| ReceiverMonitor.LockedIsInFlight | packages/sdk/src/reliability_monitor/receiver.ts:188-190 | over every history a peer is locked only while a renewal of it is in flight, so a finished renewal never blocks the next |
| ReceiverMonitor.ReceiverReliabilityMonitor.NotifyMessageReceived | packages/sdk/src/reliability_monitor/receiver.ts:82-103 | answers whether the hash came before, and remembers peer and hash |
| ReceiverMonitor.OnlyItsOwnEvents | packages/sdk/src/reliability_monitor/receiver.ts:57-80 | the attempts for a peer depend on that peer's events alone |
| ReceiverMonitor.AttemptsByStretches | packages/sdk/src/reliability_monitor/receiver.ts:50-80 | over every history, limits set by subscribing included, each longest stretch of a peer's failures under one limit makes (carried + length) / limit attempts, rounded down, and hands on the remainder; what is carried counts for at most one short of the limit |
| ReceiverMonitor.AttemptsAreQuotientsOfRuns | packages/sdk/src/reliability_monitor/receiver.ts:57-80 | while the limit stays, the attempts for a peer are the sum, over its maximal runs of failed pings, of run length divided by the limit, rounded down |
| FilterDelivery.SubscriptionManager.GroupByContentTopic | packages/utils/src/common/group_by.ts:1-14 | each content topic gets its decoders in order and no others |
| FilterDelivery.SubscriptionManager.Subscribe | packages/sdk/src/protocols/filter/subscription_manager.ts:93-146 | replaces the callbacks of exactly the decoders' content topics, the probe topic excepted, and nothing for a foreign pubsub topic |
| FilterDelivery.ForeignSubscribeIsIgnored | packages/sdk/src/protocols/filter/subscription_manager.ts:93-105 | a subscription with any decoder of another pubsub topic leaves callbacks and hashes as they were |
| FilterDelivery.SubscriptionManager.PeerUnsubscribe | packages/sdk/src/protocols/filter/subscription_manager.ts:163-165 | removes exactly the listed content topics, once for each peer that answers |
| FilterDelivery.SubscriptionManager.UnsubscribeAll | packages/sdk/src/protocols/filter/subscription_manager.ts:190-204 | removes every callback and keeps the received hashes |
| FilterDelivery.SubscriptionManager.ProcessIncomingMessage | packages/sdk/src/protocols/filter/subscription_manager.ts:206-233 | remembers the hash and hands the message to the callback that the history's meaning says |
| FilterDelivery.SubscriptionManager.PushMessage | packages/sdk/src/protocols/filter/subscription_manager.ts:412-438 | the callback gets the message exactly when it has a content topic and some decoder accepts it |
| FilterDelivery.CallbacksAreLatest | packages/sdk/src/protocols/filter/subscription_manager.ts:130-146 | at every moment a content topic is registered exactly when the latest event touching it was a subscription, and to that subscription |
| FilterDelivery.DeliveredIff | packages/sdk/src/protocols/filter/subscription_manager.ts:206-233 | over every interleaving a push reaches a callback exactly when it is the first arrival of its hash, its topic is not empty and registered then, and one of the latest subscription's decoders accepts it; and it is that subscription's callback |
| FilterDelivery.DeliveredAtMostOnce | packages/sdk/src/reliability_monitor/receiver.ts:96-102 | a message hash is handed to a callback at most once, whoever pushes it |
| FilterDelivery.UnregisteredIsLost | packages/sdk/src/protocols/filter/subscription_manager.ts:210-225 | a message whose first arrival finds no registration is never delivered, not even after a later subscription |
| RelayObservers.Relay.SubscribeWithUnsubscribe | packages/relay/src/relay.ts:168-189 | adds one observer of its own for each decoder and returns what undoes exactly that |
| RelayObservers.Relay.PushOrInitMapSet | packages/utils/src/common/push_or_init_map.ts:1-13 | adds to the set of a key, which is created empty when missing |
| RelayObservers.Relay.RemoveObservers | packages/relay/src/relay.ts:193-208 | drops the observers of one call one after the other |
| RelayObservers.Relay.ProcessIncomingMessage | packages/relay/src/relay.ts:235-260 | the observers reached are those looked up under the topic the partial decoder gives, or none |
| RelayObservers.LookupIsLive | packages/relay/src/relay.ts:168-208 | after any sequence of subscribes and unsubscribes the nested map holds, under two topics, exactly the live observers whose decoder has them |
| RelayObservers.UnsubscribeRemovesOnlyItsOwn | packages/relay/src/relay.ts:186-208 | undoing a call, once or many times, takes away its own observers and no others |
| RelayObservers.StreamReachesLive | packages/relay/src/relay.ts:235-260 | a message of correctly typed fields reaches exactly the live observers of its pubsub topic and of the content topic the full decoder sees, and none if that is empty |
| RelayObservers.EncodedIsDelivered | packages/relay/src/message_validator.ts:16-29 | an encoded message passes the validator exactly when it has a content topic and a payload, and reaches exactly the live observers of its own topic |
| RelayObservers.BytesReachLive | packages/relay/src/relay.ts:235-260 | any bytes at all reach exactly the live observers of the content topic the partial decoder gives, and none if it throws or gives none |
| RelayObservers.ValidatedIsDelivered | packages/relay/src/message_validator.ts:16-29 | framed bytes that pass the gossip validator reach exactly the live observers of the content topic in their full decode |
| RelayObservers.MisframedIsMisrouted | packages/relay/src/message_validator.ts:16-29 | framing is needed: for any 17-byte topic there are bytes that pass the validator with the topic "X" and reach the observers of that other topic and none of "X" |
| RelayObservers.EmptyTopicNeverReached | packages/relay/src/relay.ts:239-243 | no bytes at all reach an observer under the empty content topic |

## Left out

- RoundTrips.WakuRoundTrip: encodings of 2^32 bytes and more are excluded, because the format's length prefixes are 32-bit integers; the same bound is in every row of RoundTrips.
- DnsDiscovery.DnsNodeDiscovery.SearchTree: the recursion is cut off below a depth it is given, because the source's may go on for ever; `DnsSearch.DescentFromTerminatesIff` says when it does, `DnsSearch.SearchEnds` which depth is enough when it does not.
- RelayObservers.ValidatedIsDelivered: one direction only, framed bytes are delivered by their full topic; bytes that are not framed may happen to be as well.
- DnsDiscovery.DnsNodeDiscovery.SelectRandomPath: the loop that retries a random index is one draw among the indices it may stop at, because it ends only with probability one.
- PayloadEnvelope.RunPreCipher: payloads of 2^53 bytes and more, which no typed array can have, are excluded.
- PayloadEnvelope.PayloadRoundTripIff: signing and recovery are assumed to fit together and signatures to have 65 bytes, because they are foreign code.
- The protons runtime (reader, writer, decode limits) is not part of the repository; its primitives follow the encoding specification and the limits are not modelled.
- Strings on the wire are kept as their UTF-8 bytes; malformed UTF-8 is not replaced. Text in topics is a sequence of characters.
- Numbers are unbounded: topics printed from numbers of 10^21 and more, or beyond 2^53, where JavaScript loses digits, are not modelled.
- SHA-256, keccak, secp256k1, AES and the message hash are functions passed in; the ECIES and symmetric encryption around the envelope are left out.
- DNS queries, random draws, libp2p dials, the store's answers and the renewal of a peer are answers given to the model; a random draw is any allowed one.
- ENR trees are given parsed: the text of TXT entries, base32, RLP and the root signature check are left out, and so are names that JavaScript objects inherit, such as `constructor`.
- The DNS cache is keyed by subdomain while the query depends on the tree domain as well; one domain per cache is modelled.
- `shouldDialPeer` is its answer. Tags, dial errors, peer-store deletion and the DNS fallback of `dialPeer` are left out, and so are keep-alive and connection listeners.
- Two dial sessions for one peer at a time are possible in the code; nothing is claimed against them.
- ReceiverMonitor.AttemptsByStretches: ping results are handled one at a time; a result that arrives while another one's renewal waits is not counted.
- Store requests, their encoding and the check that the decoders match the content topics are left out; a response always carries message hashes, and a cursor the store does not hold is an error answer.
- `unsubscribe` of a filter subscription removes nothing when it has no peers, since it does so in each peer's answer; the model has one event for each answer.
- Which of several accepting decoders wins, and exceptions thrown by callbacks, are left out of FilterDelivery.
- Probe messages, `notifyMessageSent` and its timer appear only as renewals that no ping asked for.
- Buffers viewed at a non-zero offset, which several decoders read from offset zero, are left out.
- `contentTopicsByPubsubTopic`, the other generated codecs, light push, peer exchange, health and local caches repeat what is here or add only easy members.
