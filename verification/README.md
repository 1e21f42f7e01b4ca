# nimmesh: a verified model

nimmesh carries signed payments over a Bluetooth mesh. Phones flood packets hop by hop, a gateway with an
uplink submits a transaction to the Nimiq chain and floods a receipt back, and swaps lock funds on Polygon
and Bitcoin. This project models that logic in Dafny and proves what it keeps over every run and every input.

`dafny verify dfyconfig.toml` checks all of it.

## How it is laid out

| file | what it models |
|---|---|
| `Bytes.dfy`, `Packet.dfy`, `Codec.dfy`, `Envelope.dfy` | bytes, the wire packet, the padded frame codec, the TLV envelope |
| `Dedup.dfy`, `Gossip.dfy`, `Beacon.dfy`, `Balance.dfy`, `Settlement.dfy` | the caches, the beacon cadence and the ledger of a node |
| `Engine.dfy` | one node as a state machine: a function per handler, jobs and runs |
| `Worker.dfy` | the node as a class; every method is proved to do what its function in `Engine.dfy` says |
| `Handlers.dfy` | what single handlers and the retry tick achieve, and how a receipt reaches the node that waits for it |
| `NodeGossip.dfy`, `FirstCopies.dfy`, `Convergence.dfy` | what nodes, which handle one frame per relay key, make of gossip, and when they agree |
| `Duties.dfy`, `Origination.dfy`, `Retry.dfy`, `Headers.dfy` | what every frame, every local submission and every retry tick makes a node send, store and queue, and under which headers |
| `Coverage.dfy` | how far a flood carries |
| `Landing.dfy` | exactly when a gateway submits, a receipt settles, and an ack keeps a transaction away |
| `NodeRuns.dfy`, `Network.dfy`, `Quiescence.dfy` | all runs of one node; all runs of a network of honest nodes; termination of flooding |
| `Rlp.dfy`, `RlpRead.dfy` | RLP (Appendix B of the Ethereum Yellow Paper), EIP-155 transactions, and a reader of both |
| `Htlc.dfy` | the Bitcoin HTLC script with an interpreter, spends and preimage extraction |
| `Funding.dfy`, `BtcVerifier.dfy`, `AmoyVerifier.dfy` | the two funding verifiers |
| `Mnemonic.dfy`, `HexDecimal.dfy`, `LogScan.dfy` | BIP-39, hex to decimal, the log scan and its watermark |
| `Protobuf.dfy`, `Scanner.dfy`, `Meshtastic.dfy` | varints and fields, the field scanner, Meshtastic frames |
| `BleLinks.dfy` | the BLE link counter against a set union |

Code that changes state is a class or a method with loops, proved against a specification function; the
theorems are about those functions. A gateway's answers, clocks, the relay gate and the rate limiter are
free choices of the environment; hashes, signature checks and the GCS filter are arbitrary functions.

## What was found on the way

Each of these has a lemma at a failing input and an exact condition.

- The dedup cache evicts by age of acceptance, as its comments say beside the word LRU
  (`crates/nimmesh-core/src/dedup.rs:1-20`): using a key again does not keep it (`Dedup.ReofferingDoesNotRefresh`).
  So a repeated receipt buys no time: `Landing.RepeatedReceiptExact`, `Landing.RepeatedReceiptIsForgotten`.
- A comment in `handle_tx` (`crates/nimmesh-core/src/engine.rs:700-704`) says a later retry can still carry a
  transaction after a transient gateway error. The same gateway will not submit it: `Landing.SubmitsIff`,
  `Landing.ErrorIsNotRetried`, `Landing.RetryAfterErrorIsSwallowed`.
- A receipt status code other than 1 and 2 reads as Accepted (`crates/nimmesh-core/src/gateway.rs:55-63`):
  `Landing.SettlesIffCode`, `Landing.UnknownCodeSettles`. Settlement provenance holds because honest nodes
  write only the three codes.
- Caches offered the same gossip can differ in contents for good (`Gossip.ConvergeIff`,
  `Gossip.EquivocationDiverges`), and nodes even in height, because a node drops a frame whose payload-blind relay
  key it has seen before its cache hears it: `Convergence.HeightsAgreeIff`, `Convergence.OneKeyTwoBeacons`,
  `Convergence.BalanceHeightsAgreeIff`, `Convergence.OneKeyTwoAnswers`.
- Two ledgers of one payment can disagree for good: `Landing.LedgersAgreeIff`, `Landing.TwoVerdictsDivide`.
- A node within the hop limit can be missed by a flood, because a spent copy that comes first shadows a fresh one:
  `Coverage.CarriedIff`, `Coverage.SpentCopyShadows`.
- A node must neither relay nor store a dead transaction (`crates/nimmesh-core/src/engine.rs:654-657`), but one stored
  before it died is handed out until its retention ends: `Handlers.ServedIff`, `Handlers.DeadIsStillServed`.
- `extract_preimage` (`crates/nimmesh-core/src/btc.rs:275-286`) misses a preimage that is not 32 bytes long and can
  read a refund's selector as one, because the script checks the size of neither: `Htlc.ExtractionIsExact`,
  `Htlc.OddSizedPreimageIsMissed`, `Htlc.ZeroSelectorReadsAsPreimage`.
- Decoding a radio frame can trap: the length prefix is converted to a signed integer before it is compared
  (`shared/MeshtasticFrame.swift:217-220`): `Meshtastic.DecodeTrapsIff`, `Meshtastic.ElevenBytesTrap`.
- `readVarint` is said to refuse rather than wrap (`shared/MeshtasticFrame.swift:235`); it refuses an eleventh
  group but drops the upper bits of the tenth: `Protobuf.ReadIsExactIff`, `Protobuf.TenthGroupIsCut`.
- `eip155_v` exceeds 64 bits for chain ids from 2^63 - 17 on (`crates/nimmesh-core/src/evm_rlp.rs:89-91`), and chain ids
  2^63 apart get the same v: `Rlp.EipEqualIff`, `Rlp.DistantChainsCollide`.
- A funding hint is said to cost no more than no hint at all (`crates/nimmesh-core/src/amoy_swap_verifier.rs:12-14`),
  but the anchor it fixes is never resolved again: `AmoyVerifier.VisibleIff`, `AmoyVerifier.LateAnchorHides`,
  `AmoyVerifier.ForgedHintHides`.
- The replay onto a newly set node (`apple/NimmeshApp/Sources/BleMeshRadio.swift:34-47`) only adds peers, so
  a restored node can keep a peer that left: `BleLinks.AgreesExactlyWhenNoStalePeerIsLeft`,
  `BleLinks.RestoredNodeKeepsGonePeer`.

## Model

| member | source | states |
|---|---|---|
| `Dedup.OfferKeepsSpaced` | crates/nimmesh-core/src/dedup.rs:40-52 | any `capacity`+1 consecutively accepted keys are pairwise distinct: offering a key keeps this |
| `Dedup.AcceptedAgainOnlyAfterEviction` | crates/nimmesh-core/src/dedup.rs:40-52 | two acceptances of one key have at least `capacity` distinct other keys accepted between them |
| `Dedup.RememberedUntilEvicted` | crates/nimmesh-core/src/dedup.rs:40-57 | a key is still known while fewer than `capacity` keys were accepted after it |
| `Dedup.ReofferingDoesNotRefresh` | crates/nimmesh-core/src/dedup.rs:40-52 | eviction is by age of acceptance, not by use: re-offering the oldest key does not save it from the next new one |
| `Dedup.DedupCache.Insert` | crates/nimmesh-core/src/dedup.rs:40-52 | the set and the queue always hold exactly the last `capacity` accepted keys; true exactly for a key not among them |
| `Dedup.DedupCache.Contains` | crates/nimmesh-core/src/dedup.rs:55-57 | membership is membership among the last `capacity` accepted keys |
| `Dedup.DedupCache.Len` | crates/nimmesh-core/src/dedup.rs:60-62 | the length is the number of accepted keys, cut at the capacity |
| `Dedup.DedupCache.constructor` | crates/nimmesh-core/src/dedup.rs:29-36 | starts empty; a zero capacity becomes one |
| `Packet.TypeOf` | crates/nimmesh-core/src/packet.rs:140-162 | reading a type byte is exactly the inverse of writing one: some type exactly for the bytes that a type writes |
| `Packet.FlagsRoundTrip` | crates/nimmesh-core/src/packet.rs:184-212 | writing the flags and the two derived bits and reading them back loses nothing |
| `Packet.FlagsCanonical` | crates/nimmesh-core/src/packet.rs:184-219 | a flags byte without unknown bits is what its flags are written as |
| `Codec.DecodeEncode` | crates/nimmesh-core/src/codec.rs:135-260 | for every version-1 packet with at most 65535 payload bytes, decoding its structured bytes followed by anything gives the packet back |
| `Codec.FrameDecodes` | crates/nimmesh-core/src/codec.rs:135-260 | the padded frame of every encodable version-1 packet decodes to that packet |
| `Codec.FrameDecodesIff` | crates/nimmesh-core/src/codec.rs:135-260 | an encoded frame decodes to its packet exactly when its version is 1, and is refused for its version otherwise |
| `Codec.EncodeDecode` | crates/nimmesh-core/src/codec.rs:171-260 | every frame that decodes starts with the structured encoding of what it decodes to |
| `Codec.PaddingIsExact` | crates/nimmesh-core/src/codec.rs:108-127 | padding is present exactly when the gap to the next block size is 1..255, fills the gap, and every pad byte equals the pad length |
| `Codec.HeaderLayout` | crates/nimmesh-core/src/codec.rs:135-164 | the header of a frame byte by byte: version, type, TTL, time, flag bits, payload length |
| `Codec.BodyLayout` | crates/nimmesh-core/src/codec.rs:135-164 | sender, recipient, payload and signature stand after it, each at its offset |
| `Codec.RelayTouchesOneByte` | crates/nimmesh-core/src/engine.rs:771-776 | re-encoding a packet with a smaller TTL gives a frame of the same length that differs at most in byte 2 |
| `Codec.ApplyPadding` | crates/nimmesh-core/src/codec.rs:117-127 | the loop appends exactly the specified padding |
| `Codec.Encode` | crates/nimmesh-core/src/codec.rs:135-164 | the buffer-growing encoder computes the specified frame, or the specified error |
| `Codec.Decode` | crates/nimmesh-core/src/codec.rs:171-260 | the offset-advancing decoder computes the specified packet, or the same error as the specification |
| `Envelope.ParseSerialise` | crates/nimmesh-core/src/envelope.rs:140-151 | parsing the bytes of any list of TLVs gives that list |
| `Envelope.FoldIsLastWins` | crates/nimmesh-core/src/envelope.rs:181-261 | folding the TLVs succeeds exactly when every fixed-width TLV has its width, and then keeps, per field, the last value of its type |
| `Envelope.FirstBadSizeIsReported` | crates/nimmesh-core/src/envelope.rs:181-261 | otherwise the first TLV of a wrong width is the one reported |
| `Envelope.ForwardCompatible` | crates/nimmesh-core/src/envelope.rs:181-261 | two TLV lists with the same known TLVs in the same order decode alike, wherever unknown types are mixed in |
| `Envelope.RoundTrip` | crates/nimmesh-core/src/envelope.rs:157-261 | encoding succeeds exactly when both variable fields fit 255 bytes, and then decoding returns the envelope |
| `Envelope.EnvelopeLayout` | crates/nimmesh-core/src/envelope.rs:157-174 | an encoded envelope byte for byte: the six fields as type, length and value in ascending type, the absent ones missing |
| `Envelope.PushTlv` | crates/nimmesh-core/src/envelope.rs:140-151 | appends one TLV, or refuses a value over 255 bytes naming its type and length |
| `Envelope.EncodeEnvelope` | crates/nimmesh-core/src/envelope.rs:157-174 | the appending encoder writes the TLVs of the envelope in type order, or the error of the first that does not fit |
| `Envelope.DecodeEnvelope` | crates/nimmesh-core/src/envelope.rs:181-261 | the while loop over an offset equals the fold over the parsed TLV list, errors included |
| `Gossip.HoldsFirstHighest` | crates/nimmesh-core/src/balance.rs:155-177 | after any sequence of observations, a pinned cache holds per key the first one at the greatest height on its network |
| `Gossip.Converge` | crates/nimmesh-core/src/balance.rs:155-177 | two caches offered the same set, in any order and with any duplicates, agree on keys and heights always, and on contents when the observations at the greatest height of each key agree |
| `Gossip.ConvergeIff` | crates/nimmesh-core/src/balance.rs:155-177 | that condition is exact: all orders and repetitions leave the same cache if and only if the top observations of every key agree |
| `Gossip.EquivocationDiverges` | crates/nimmesh-core/src/balance.rs:155-177 | any two different top observations of a key, each offered first to one cache, leave the two caches with different contents |
| `Beacon.BeaconCodec` | crates/nimmesh-core/src/beacon.rs:117-140 | the beacon codec is a bijection onto payloads of the exact length |
| `Beacon.BeaconLayout` | crates/nimmesh-core/src/beacon.rs:117-123 | height big-endian, hash, network, in this order |
| `Beacon.HeadsConverge` | crates/nimmesh-core/src/beacon.rs:184-195 | head caches offered the same beacons agree on the height always and on the whole beacon when the beacons at the greatest height agree |
| `Beacon.HeadsConvergeIff` | crates/nimmesh-core/src/beacon.rs:184-195 | whatever the order, the head is the same if and only if the beacons at the greatest height heard agree |
| `Beacon.HeadCache.Accept` | crates/nimmesh-core/src/beacon.rs:184-195 | the cached head moves only to a strictly higher beacon of its own network, and says whether it moved |
| `Beacon.BeaconEmitter.PollDue` | crates/nimmesh-core/src/beacon.rs:241-249 | fires first time and then only a full tick after the last firing |
| `Beacon.BeaconEmitter.SelectBeacon` | crates/nimmesh-core/src/beacon.rs:65-82 | probes exactly when not backing off, keeps the latest live head, and starts a back-off on failure |
| `Beacon.BeaconEmitter.Emit` | crates/nimmesh-core/src/beacon.rs:264-288 | one poll of the emitter is one step of the cadence model |
| `Beacon.FloodsAreSpaced` | crates/nimmesh-core/src/beacon.rs:241-288 | on every run, even if the clock jumps back, any two beacon floods are at least 10 000 ms apart |
| `Beacon.DueIff` | crates/nimmesh-core/src/beacon.rs:241-249 | a poll is due exactly when every earlier due poll lies at least 10 000 ms back |
| `Beacon.ProbesIff` | crates/nimmesh-core/src/beacon.rs:65-82 | a poll probes exactly when it is due and every failed probe lies at least five due polls back |
| `Beacon.EmitsIff` | crates/nimmesh-core/src/beacon.rs:65-82 | a poll floods exactly when it is due and some probe so far was answered |
| `Beacon.FailedProbeBacksOff` | crates/nimmesh-core/src/beacon.rs:65-82 | after a failed probe the next probe comes only after five due ticks |
| `Beacon.FloodedBeaconIsLatestLive` | crates/nimmesh-core/src/beacon.rs:65-82 | every flooded beacon is the result of the latest successful probe |
| `Balance.ResponseCodec` | crates/nimmesh-core/src/balance.rs:86-112 | the response codec is a bijection onto payloads of the exact length |
| `Balance.ResponseLayout` | crates/nimmesh-core/src/balance.rs:86-93 | address, balance, height and network, in this order |
| `Balance.BalancesConverge` | crates/nimmesh-core/src/balance.rs:155-177 | balance caches offered the same responses hold the same addresses at the same heights, and the same balances when the answers at the greatest height of each address agree |
| `Balance.BalancesConvergeIff` | crates/nimmesh-core/src/balance.rs:155-177 | whatever the order, the entries are the same if and only if those top answers agree |
| `Balance.BalanceCache.Observe` | crates/nimmesh-core/src/balance.rs:155-177 | an entry changes only for a strictly fresher response of the pinned network; an unpinned cache is pinned by the first response |
| `Settlement.ReceiptRoundTrip` | crates/nimmesh-core/src/settlement.rs:36-51 | decoding an encoded receipt returns it |
| `Settlement.ReceiptLayout` | crates/nimmesh-core/src/settlement.rs:36-41 | the txId, then the status code |
| `Settlement.ReceiptDecodesIff` | crates/nimmesh-core/src/settlement.rs:44-51 | a payload decodes to a receipt exactly when it has 33 bytes, its id first and its status read from the last |
| `Settlement.LedgerOnlyCloses` | crates/nimmesh-core/src/settlement.rs:109-131 | neither ledger operation forgets a payment, turns its direction or leaves a terminal status |
| `Engine.WireIsTransparent` | crates/nimmesh-core/src/engine.rs:540-575 | a node given the encoded frame of a packet does exactly what it does given the packet |
| `Engine.RelayedTtl` | crates/nimmesh-core/src/relay.rs:50-57 | a relayed TTL is strictly below the received one and below the default |
| `Worker.Worker.FloodExcluding` | crates/nimmesh-core/src/engine.rs:372-381 | sends the packet once to every peer except the excluded one |
| `Worker.Worker.Remember` | crates/nimmesh-core/src/engine.rs:460-465 | drops what is older than the retention, then stores the packet unless its id is there, evicting the oldest when full |
| `Worker.Worker.RelayOnward` | crates/nimmesh-core/src/engine.rs:760-781 | relays with the capped and decremented TTL to everyone but the source, or does nothing when the gate or the hop floor says so |
| `Worker.Worker.HandleTx` | crates/nimmesh-core/src/engine.rs:649-724 | the handler does to the whole worker state exactly what the specification says: dedup, gates, store, submit once, relay |
| `Worker.Worker.HandleReceipt` | crates/nimmesh-core/src/engine.rs:726-745 | the handler stores, settles, clears the pending entry, remembers the ack and relays, and touches nothing else |
| `Worker.Worker.HandleHeadBeacon` | crates/nimmesh-core/src/beacon.rs:293-307 | the handler absorbs the head, stores and relays, and touches nothing else |
| `Worker.Worker.HandleBalanceQuery` | crates/nimmesh-core/src/balance.rs:219-253 | the handler stores, answers if it is a gateway with an answer, and relays |
| `Worker.Worker.HandleBalanceResponse` | crates/nimmesh-core/src/balance.rs:259-273 | the handler absorbs the balance, stores and relays |
| `Worker.Worker.DispatchPacket` | crates/nimmesh-core/src/engine.rs:579-627 | every type reaches its handler, swap, chat and history-answer packets the blind one; fragments and history queries are dropped |
| `Worker.Worker.HandleRequestSync` | crates/nimmesh-core/src/engine.rs:632-647 | answers with exactly the cached packets the filter does not cover, to the requesting link only |
| `Worker.Worker.ProcessInbound` | crates/nimmesh-core/src/engine.rs:540-575 | decoding, rate limit, isRSR unwrapping and dispatch together are the specified step on the frame bytes |
| `Worker.Worker.AddPeer` | crates/nimmesh-core/src/engine.rs:193-195 | a link is added once |
| `Worker.Worker.RemovePeer` | crates/nimmesh-core/src/engine.rs:197-199 | exactly that link is removed |
| `Worker.Worker.RecordIncoming` | crates/nimmesh-core/src/engine.rs:335-337 | an incoming payment is tracked as pending unless known |
| `Worker.Worker.Do` | crates/nimmesh-core/src/engine.rs:469-781 | whatever the job, the object does what one step of the specification does |
| `Worker.Worker.FloodLocalTx` | crates/nimmesh-core/src/engine.rs:469-510 | originating a payment records it pending, stores it, queues it for retry and floods it; an oversized wire changes nothing |
| `Worker.Worker.EmitHeadBeacon` | crates/nimmesh-core/src/beacon.rs:264-288 | the beacon tick of a gateway is the specified step |
| `Worker.Worker.EmitRequestSync` | crates/nimmesh-core/src/engine.rs:516-524 | the advertised ids are the newest live ones, at most 360, and the request carries no hops |
| `Worker.Worker.FloodLocalBalanceQuery` | crates/nimmesh-core/src/balance.rs:203-213 | a balance query is built, marked seen, stored and flooded |
| `Worker.Worker.RetryTick` | crates/nimmesh-core/src/pending_retry.rs:100-135 | the two loops of the retry tick fail exactly the dead entries and re-flood and stamp exactly the due ones |
| `Handlers.SendsExactly` | crates/nimmesh-core/src/engine.rs:372-381 | a flood sends to every peer but the excluded one, and to nobody else |
| `Handlers.SendsOnce` | crates/nimmesh-core/src/engine.rs:372-381 | and to nobody twice |
| `Handlers.PeersNeverRepeat` | crates/nimmesh-core/src/engine.rs:193-199 | on every run the links of a node are a set |
| `Handlers.GcKeepsExactlyTheLive` | crates/nimmesh-core/src/store_forward.rs:161-174 | entries stored in time order stay exactly while within the 15-minute retention |
| `Handlers.KeepTidy` | crates/nimmesh-core/src/store_forward.rs:93-106 | storing keeps ids distinct, entries in time order and the cache bounded, and the offered id is in it afterwards |
| `Handlers.KeepExactly` | crates/nimmesh-core/src/store_forward.rs:93-106 | storing forgets only entries past retention or the oldest live one of a full cache, and adds the packet exactly when its id was not there |
| `Handlers.CatchUpExactly` | crates/nimmesh-core/src/engine.rs:632-647 | the catch-up reply holds exactly the encodable cached packets the filter does not cover, each flagged isRSR |
| `Handlers.ServedIff` | crates/nimmesh-core/src/engine.rs:632-647 | a sync request is answered with exactly the cached packets stored within 15 minutes that the filter does not cover, whatever the head |
| `Handlers.RequestForgetsTheOld` | crates/nimmesh-core/src/engine.rs:632-647 | a sync request makes the node forget exactly the entries older than 15 minutes, and else changes only what is sent |
| `Handlers.DeadIsStillServed` | crates/nimmesh-core/src/engine.rs:632-658 | the failing input: a stored transaction the node itself would now refuse as expired is still handed out |
| `Handlers.ReceiptCloses` | crates/nimmesh-core/src/engine.rs:734-743 | a new receipt closes its payment if pending and ends its retries; no other payment or retry changes |
| `Handlers.GatewayReports` | crates/nimmesh-core/src/engine.rs:698-719 | a gateway that gets a verdict on a fresh transaction tells every peer, under the id the transaction came with |
| `Handlers.CatchUpSettles` | crates/nimmesh-core/src/engine.rs:561-647 | a node that slept through a receipt and asks a peer still holding it is sent it, and its pending payment takes the verdict |
| `Handlers.FailsExactlyTheDead` | crates/nimmesh-core/src/pending_retry.rs:100-135 | the tick fails exactly the still pending payments with a dead entry |
| `Handlers.KeepsExactlyTheLiving` | crates/nimmesh-core/src/pending_retry.rs:100-135 | exactly the entries that can still land stay queued |
| `Handlers.RetriesExactlyTheDue` | crates/nimmesh-core/src/pending_retry.rs:100-135 | exactly the due entries are stamped, and each is sent to every peer |
| `Handlers.RetriesNothingElse` | crates/nimmesh-core/src/pending_retry.rs:100-135 | whatever the tick sends is the packet of a due entry, to a peer |
| `NodeRuns.RunInv` | crates/nimmesh-core/src/engine.rs:540-781 | every run of jobs keeps the invariant tying relays and submissions to their own acceptances in the dedup logs |
| `NodeRuns.AtMostOnce` | crates/nimmesh-core/src/engine.rs:651-729 | on every run, two relays of one relay key have at least 2048 distinct other keys accepted between them, and two submissions of one txId at least 1024 distinct other txIds, whatever the first outcome was |
| `NodeRuns.DeadStaysDead` | crates/nimmesh-core/src/engine.rs:654-660 | once the head reached h, on every later run a transaction with a window ending at or before h is not stored, submitted or relayed, directly or through catch-up |
| `NodeRuns.ReceiptIsRemembered` | crates/nimmesh-core/src/engine.rs:739-743 | handling a new receipt leaves its txId among the remembered acks |
| `NodeRuns.LandedStaysLanded` | crates/nimmesh-core/src/engine.rs:686-695 | a txId at a position of the ack log is not stored, submitted or relayed again under any header while fewer than 1024 acks follow that position |
| `NodeGossip.HeadIsWhatWasHeard` | crates/nimmesh-core/src/beacon.rs:264-307 | on every run a node's head is that of a cache offered exactly the beacons of admitted frames with an unseen relay key and of its own polls |
| `NodeGossip.BalancesAreWhatWasHeard` | crates/nimmesh-core/src/balance.rs:219-273 | on every run a node's balances are those of a cache offered exactly the responses of admitted frames with an unseen relay key and its own answers |
| `FirstCopies.OneOutcomeIff` | crates/nimmesh-core/src/engine.rs:63-69 | of frames handled once per relay key, the greatest measure handled is the same in every order and repetition exactly when nothing is measured or some relay key is used only for frames at the top |
| `Convergence.HeightsAgreeIff` | crates/nimmesh-core/src/beacon.rs:293-307 | nodes given the same beacon frames in any order and repetition always end at the same height exactly when no frame is of their network or some relay key is used only for frames at the greatest height |
| `Convergence.HeadsAgreeIff` | crates/nimmesh-core/src/beacon.rs:293-307 | they always end with the same head exactly when, besides, the frames at the greatest height carry one beacon |
| `Convergence.OneKeyTwoBeacons` | crates/nimmesh-core/src/beacon.rs:299-301 | the failing input: of two beacons under one relay key whichever comes first is the head |
| `Convergence.BalanceHeightsAgreeIff` | crates/nimmesh-core/src/balance.rs:259-273 | nodes given the same response frames always know an address at the same height exactly when no frame answers for it or some relay key is used only for answers for it at the greatest height |
| `Convergence.OneKeyTwoAnswers` | crates/nimmesh-core/src/balance.rs:259-273 | the failing input: two answers for one address under one relay key |
| `Convergence.NamedKeysConverge` | crates/nimmesh-core/src/engine.rs:63-69 | when no relay key is used for two payloads, nodes given the same frames agree on heights always |
| `Duties.FrameIsCarried` | crates/nimmesh-core/src/engine.rs:540-781 | every admitted frame of a modelled type with a new header and, for a transaction, all gates open is sent with one hop less to exactly the links other than its source, while the gate is open, it fits a frame and has more than one hop left; it is cached unless its id is; its header is seen from then on |
| `Duties.ReplyIsCarried` | crates/nimmesh-core/src/engine.rs:561-575 | a catch-up reply is cached with its flag cleared and no hops, and handed on to nobody |
| `Duties.FrameIsDropped` | crates/nimmesh-core/src/engine.rs:540-660 | every other frame changes nothing but what is seen: rate limited, known header, or a transaction that is expired, unverified or acked |
| `Origination.PaymentIsFlooded` | crates/nimmesh-core/src/engine.rs:469-510 | a wire of at most 255 bytes goes to every link in a NimiqTx packet of TTL 7 whose envelope decodes to that wire, network, txId and window (head + 7200); it is cached and seen, the payment tracked, and the same packet queued for retry, stamped exactly when someone was linked |
| `Origination.LongWireIsRefused` | crates/nimmesh-core/src/engine.rs:480-492 | a longer wire changes nothing |
| `Origination.AddPendingExactly` | crates/nimmesh-core/src/pending_retry.rs:62-85 | queueing an entry replaces the one of its txId, stays within 16, and loses another entry only when full |
| `Origination.PollFloods` | crates/nimmesh-core/src/beacon.rs:264-288 | a gateway poll floods a packet that decodes to exactly the beacon the cadence emits, and floods nothing when it emits none |
| `Origination.QueryFloods` | crates/nimmesh-core/src/balance.rs:203-213 | a balance query reaches every link and decodes to the address asked for |
| `Origination.AnswerFloods` | crates/nimmesh-core/src/balance.rs:231-250 | an answer is flooded, cached and seen, and decodes to the queried address with the backend's balance, height and network |
| `Origination.QueryIsAnswered` | crates/nimmesh-core/src/balance.rs:219-253 | a gateway given a fresh query and a backend answer sends every link that response |
| `Origination.NewestAre` | crates/nimmesh-core/src/store_forward.rs:133-141 | the i-th advertised id is that of the i-th newest entry, and there are as many as entries, up to the limit |
| `Origination.SyncFloods` | crates/nimmesh-core/src/engine.rs:516-524 | a sync request reaches every link without hops and carries the filter of the last 360 live entries, newest first |
| `Origination.IncomingIsTracked` | crates/nimmesh-core/src/engine.rs:335-337 | a payment to wait for is tracked as pending and incoming unless known, and nothing else changes |
| `Headers.SequenceCounts` | crates/nimmesh-core/src/engine.rs:343-352 | over every run the sequence number has advanced, wrapping at 2^64, by exactly the packets the jobs originated |
| `Headers.OwnKeysRepeatIff` | crates/nimmesh-core/src/engine.rs:105-107 | two packets a node originates share a relay key exactly when they are of one type and a multiple of 2^64 packets was originated from the one to the other |
| `Headers.OwnKeysAreFresh` | crates/nimmesh-core/src/engine.rs:105-107 | so never within 2^64 - 1 jobs |
| `Retry.TickFails` | crates/nimmesh-core/src/pending_retry.rs:100-135 | the tick fails exactly the pending payments with an entry whose window the head reached or, without window, that is over two hours old |
| `Retry.TickKeeps` | crates/nimmesh-core/src/pending_retry.rs:100-135 | the queue afterwards is exactly the entries that can still land, with those due stamped when someone is linked |
| `Retry.TickSends` | crates/nimmesh-core/src/pending_retry.rs:100-135 | the tick sends exactly the live entries never flooded or flooded at least fifteen seconds ago, each to every link |
| `Coverage.CarriedIff` | crates/nimmesh-core/src/engine.rs:540-781 | along a path of nodes that hear it for the first time and let it pass, a packet of any modelled type gets past k nodes exactly when its hop budget, cut at 7, exceeds k |
| `Coverage.SpentCopyShadows` | crates/nimmesh-core/src/engine.rs:618-781 | the failing input for more, of any modelled type: a spent copy that comes first makes the node drop a copy with all its hops |
| `Landing.SubmitsIff` | crates/nimmesh-core/src/engine.rs:649-719 | a gateway submits exactly for an unseen header past the gates with a readable envelope and a txId not among the last 1024 claimed; it claims the txId whatever the outcome |
| `Landing.FrameSubmitsIff` | crates/nimmesh-core/src/engine.rs:540-719 | the same for any frame, rate limit and catch-up included |
| `Landing.ErrorIsNotRetried` | crates/nimmesh-core/src/engine.rs:699-719 | after a submission that ended in an error, no frame with that txId, under any header, is submitted on any later run until 1024 further txIds are claimed |
| `Landing.RetryAfterErrorIsSwallowed` | crates/nimmesh-core/src/engine.rs:700-719 | the failing input: the same payment under a fresh header, with the uplink back, is not submitted |
| `Landing.SettlesIffCode` | crates/nimmesh-core/src/gateway.rs:55-63 | a new receipt settles the pending payment it names exactly when its status byte is neither 1 nor 2, and fails it otherwise |
| `Landing.UnknownCodeSettles` | crates/nimmesh-core/src/gateway.rs:55-63 | status byte 3, which no node writes, settles a payment |
| `Landing.ReceiptEndsCarrying` | crates/nimmesh-core/src/engine.rs:686-743 | after processing a receipt for a txId new to the ack window, no frame with that txId is stored, submitted or relayed on any later run with fewer than 1024 further acks |
| `Landing.RepeatedReceiptExact` | crates/nimmesh-core/src/engine.rs:739-743 | a receipt repeating a txId acked earlier changes nothing: the txId stays known for exactly 1024 acks counted from the first one |
| `Landing.FirstReceiptDecides` | crates/nimmesh-core/src/engine.rs:726-745 | of any receipts for a pending payment, in any order and repetition, the one handled first decides its status for good |
| `Landing.LedgersAgreeIff` | crates/nimmesh-core/src/engine.rs:726-745 | any two ledgers waiting for a payment and given the same receipts agree, whatever the order, exactly when all the receipts say the same |
| `Landing.TwoVerdictsDivide` | crates/nimmesh-core/src/engine.rs:726-745 | the failing input: an accepting and a refusing receipt leave one ledger settled and another failed |
| `Landing.RepeatedReceiptIsForgotten` | crates/nimmesh-core/src/engine.rs:739-743 | the failing input: full window, oldest txId acked again, one new ack, and the repeated txId is forgotten |
| `Network.RunNetInv` | crates/nimmesh-core/src/engine.rs:469-745 | over every run of a network (any order, loss, duplication, catch-up, link changes), all frames, caches, pending entries, submissions and ledgers claim only what happened |
| `Network.FlightIsBytes` | crates/nimmesh-core/src/engine.rs:540-575 | on every run every frame in flight encodes, and delivering it is handing its destination the encoded bytes |
| `Network.SettlementProvenance` | crates/nimmesh-core/src/engine.rs:649-745 | whichever ledger shows a payment settled, a gateway of the network submitted bytes some node originated and had them accepted |
| `Network.OriginBytesLanded` | crates/nimmesh-core/src/engine.rs:469-510 | when no two originated wires share an id, the accepted submission carried exactly the bytes the origin was given |
| `Quiescence.InboundSpends` | crates/nimmesh-core/src/engine.rs:540-781 | handling any frame puts strictly less weight in flight than the frame had, even if the node remembers nothing |
| `Quiescence.FloodQuiesces` | crates/nimmesh-core/src/engine.rs:516-781 | without new local jobs no delivery schedule is longer than the weight initially in flight, though links move and caches forget in between |
| `Rlp.MinimalBE` | crates/nimmesh-core/src/evm_rlp.rs:31-38 | denotes the number and has no leading zero |
| `Rlp.MinimalIsUnique` | crates/nimmesh-core/src/evm_rlp.rs:31-38 | a byte string without leading zero is the minimal form of its value |
| `Rlp.MinimalBe` | crates/nimmesh-core/src/evm_rlp.rs:31-38 | the eight-byte form without its leading zeros is the minimal form, at most eight bytes |
| `Rlp.RlpLength` | crates/nimmesh-core/src/evm_rlp.rs:42-52 | writes the short or the long length prefix |
| `Rlp.StripLeadingZeros` | crates/nimmesh-core/src/evm_rlp.rs:82-85 | the loop removes exactly the leading zeros |
| `Rlp.EncodeList` | crates/nimmesh-core/src/evm_rlp.rs:66-73 | the appending loop writes the list header and the items in order |
| `Rlp.RlpListIsEncode` | crates/nimmesh-core/src/evm_rlp.rs:66-73 | a list of encoded items is the encoding of the list |
| `Rlp.Unique` | crates/nimmesh-core/src/evm_rlp.rs:42-73 | RLP is uniquely decodable and prefix-free over all nested items: equal encodings followed by anything mean equal items and equal remainders |
| `Rlp.TransactionsFit` | crates/nimmesh-core/src/evm_rlp.rs:105-122 | every transaction whose data leaves a thousand bytes of the 64-bit range satisfies the size hypothesis of the results below |
| `Rlp.SigningDeterminesTx` | crates/nimmesh-core/src/evm_rlp.rs:169-181 | equal signing bytes mean equal transactions, chain id included |
| `Rlp.EipRecoverable` | crates/nimmesh-core/src/evm_rlp.rs:89-91 | without overflow, v determines the recovery id (0 or 1) and the chain id |
| `Rlp.EipEqualIff` | crates/nimmesh-core/src/evm_rlp.rs:89-91 | with the 64-bit wrap-around, equal v means equal recovery ids and chain ids equal modulo 2^63, and conversely |
| `Rlp.DistantChainsCollide` | crates/nimmesh-core/src/evm_rlp.rs:193-205 | the failing input: chain ids 2^63 apart give the same signed bytes |
| `Rlp.SignedDeterminesTx` | crates/nimmesh-core/src/evm_rlp.rs:193-205 | equal signed bytes mean equal fields, equal r and s, equal recovery id and chain id modulo 2^63, and the chain id outright when v does not overflow |
| `RlpRead.SigningReadsBack` | crates/nimmesh-core/src/evm_rlp.rs:169-181 | an RLP reader takes the signing payload apart into nonce, gas price, gas limit, recipient, value, data, chain id, 0, 0 |
| `RlpRead.SignedReadsBack` | crates/nimmesh-core/src/evm_rlp.rs:193-205 | and the signed transaction into the same six fields, then v, r and s, without leading zeros |
| `RlpRead.CanonicalBytes` | crates/nimmesh-core/src/evm_rlp.rs:42-73 | the canonical short encodings byte for byte |
| `Htlc.NumRoundTrip` | crates/nimmesh-core/src/btc.rs:55-71 | script numbers decode to what was encoded |
| `Htlc.ParseSerialise` | crates/nimmesh-core/src/btc.rs:55-71 | the script bytes parse back to the opcodes |
| `Htlc.RedeemBytes` | crates/nimmesh-core/src/btc.rs:55-71 | the redeem script byte for byte |
| `Htlc.CltvMeansLock` | crates/nimmesh-core/src/btc.rs:55-71 | OP_CHECKLOCKTIMEVERIFY on the pushed locktime passes exactly when the lock of BIP 65 is satisfied |
| `Htlc.ScriptMeansContract` | crates/nimmesh-core/src/btc.rs:55-71 | for every witness stack and transaction context, the script accepts exactly when the claim terms or the refund terms hold |
| `Htlc.SignSpend` | crates/nimmesh-core/src/btc.rs:161-211 | errors for a missing sighash or an unreadable signature; otherwise the witness is the low-S DER signature with its sighash type, the branch items, the redeem script |
| `Htlc.ClaimTx` | crates/nimmesh-core/src/btc.rs:102-120 | builds the claim with locktime 0 and final sequence, or reports the signing error |
| `Htlc.RefundTx` | crates/nimmesh-core/src/btc.rs:137-155 | refuses a locktime beyond 32 bits first; then builds the refund with that locktime and a non-final sequence, or reports the signing error |
| `Htlc.ClaimSpends` | crates/nimmesh-core/src/btc.rs:102-120 | the built claim spends the output exactly when the preimage opens the hashlock and the signature is the recipient's |
| `Htlc.RefundSpends` | crates/nimmesh-core/src/btc.rs:137-155 | the built refund spends the output exactly when the signature is the sender's: locktime and sequence satisfy CLTV |
| `Htlc.OwnSignatureIsValid` | crates/nimmesh-core/src/btc.rs:161-211 | a chain that checks the sighash byte and low-S accepts the signature item made with the right key |
| `Htlc.OwnSpendsAreAccepted` | crates/nimmesh-core/src/btc.rs:102-211 | so the claim of the recipient, with the preimage, and the refund of the sender spend the output |
| `Htlc.RefundBuildableIffReachable` | crates/nimmesh-core/src/btc.rs:137-155 | the builder refuses a locktime exactly when no transaction could ever take the refund branch |
| `Htlc.PreimageIsRevealed` | crates/nimmesh-core/src/btc.rs:282-286 | the preimage is read from every built claim and from no built refund |
| `Htlc.ExtractionIsExact` | crates/nimmesh-core/src/btc.rs:275-286 | an accepted spend has four items or three; item 1 is extracted exactly when it is 32 bytes; of a claim it opens the hashlock, of a refund it is the false selector |
| `Htlc.ClaimRevealsIff` | crates/nimmesh-core/src/btc.rs:275-286 | a claim reveals an opener of the hashlock exactly when its preimage is 32 bytes long |
| `Htlc.RefundRevealsIff` | crates/nimmesh-core/src/btc.rs:275-286 | a refund yields nothing exactly when its selector is not 32 bytes long; otherwise it yields that zero selector |
| `Htlc.OddSizedPreimageIsMissed` | crates/nimmesh-core/src/btc.rs:282-286 | the failing input: a preimage of any other size claims the output and is not extracted |
| `Htlc.ZeroSelectorReadsAsPreimage` | crates/nimmesh-core/src/btc.rs:282-286 | the failing input: a refund with a selector of 32 zero bytes reads as if it revealed them |
| `BtcVerifier.Scan` | crates/nimmesh-core/src/btc_verifier.rs:206-222 | the nested loop finds the first exact-script output in listing order and whether a foreign P2WSH output exists |
| `BtcVerifier.ObserveBtc` | crates/nimmesh-core/src/btc_verifier.rs:191-280 | the observer computes the declarative verdict |
| `BtcVerifier.VerdictIsFaithful` | crates/nimmesh-core/src/btc_verifier.rs:206-280 | Found exactly when the first exact-script output has no listed spend and the sources say enough, with its value and the agreed timeout; Mismatch exactly when only foreign P2WSH outputs exist |
| `BtcVerifier.ConfirmationsExactly` | crates/nimmesh-core/src/btc_verifier.rs:239-279 | the confirmations of every report, with one source or two: 0 while unconfirmed, otherwise min(lowest wired tip - block + 1, 2^32-1), at least 1 |
| `BtcVerifier.P2wshIff` | crates/nimmesh-core/src/btc_verifier.rs:135-137 | a script is P2WSH exactly when it is 0x00 0x20 and 32 bytes |
| `BtcVerifier.DepthNeedsAgreement` | crates/nimmesh-core/src/btc_verifier.rs:258-279 | with a second source, positive confirmations mean both name the same block, counted from the lower tip |
| `BtcVerifier.SecondSourceNeverRaises` | crates/nimmesh-core/src/btc_verifier.rs:258-279 | a second source never raises confirmations, never changes terms, never turns Absent into Found |
| `Funding.DepthMonotone` | crates/nimmesh-core/src/btc_verifier.rs:274-279 | a lower tip never gives more confirmations |
| `AmoyVerifier.FloorClearedExactly` | crates/nimmesh-core/src/amoy_swap_verifier.rs:59-76 | an escrow funded by the mapping clears its term floor exactly when its term lies within the slack or it is seen within the slack of the (saturation-adjusted) funding time |
| `AmoyVerifier.TimelockIsTermAhead` | crates/nimmesh-core/src/amoy_swap_verifier.rs:59-76 | without saturation the timelock is the term's distance from its anchor ahead of now, and maps back to the term plus the slack |
| `AmoyVerifier.WordIsExact` | crates/nimmesh-core/src/amoy_swap_verifier.rs:213-220 | a word reads as v exactly when it is the 32-byte big-endian form of v |
| `AmoyVerifier.DecodeIsExact` | crates/nimmesh-core/src/amoy_swap_verifier.rs:224-235 | event data decodes to terms exactly when it is their ABI encoding |
| `AmoyVerifier.StateIsSixthWord` | crates/nimmesh-core/src/amoy_swap_verifier.rs:243-255 | the escrow state reads as v exactly when the sixth word of the answer is the ABI form of v |
| `AmoyVerifier.ScanIsEarliest` | crates/nimmesh-core/src/amoy_swap_verifier.rs:429-454 | the scan settles on the live log in the earliest block, the first listed within it, or finds none live |
| `AmoyVerifier.Scan` | crates/nimmesh-core/src/amoy_swap_verifier.rs:429-454 | the loop over logs computes that choice and whether another hashlock pays the same address |
| `AmoyVerifier.EarliestReceipt` | crates/nimmesh-core/src/amoy_swap_verifier.rs:316-335 | the anchor is the lowest block of a successful candidate receipt, absent exactly when there is none |
| `AmoyVerifier.FundingStore.NoteCandidate` | crates/nimmesh-core/src/amoy_swap_verifier.rs:291-298 | appends a new hint unless it is known or 32 are held |
| `AmoyVerifier.FundingStore.Anchor` | crates/nimmesh-core/src/amoy_swap_verifier.rs:316-335 | resolves the anchor once and keeps it |
| `AmoyVerifier.Observe` | crates/nimmesh-core/src/amoy_swap_verifier.rs:397-495 | the observer computes the specified verdict and leaves the store as specified |
| `AmoyVerifier.FoundExactly` | crates/nimmesh-core/src/amoy_swap_verifier.rs:397-495 | Found exactly for the earliest-block live log with the expected hashlock that every wired endpoint reads Live, heads agreeing; the verdict and the store carry that log's terms, otherwise nothing is recorded |
| `AmoyVerifier.MismatchExactly` | crates/nimmesh-core/src/amoy_swap_verifier.rs:429-494 | Mismatch exactly when nothing live carries the expected hashlock and some log carries another |
| `AmoyVerifier.SecondaryNeverRaises` | crates/nimmesh-core/src/amoy_swap_verifier.rs:422-475 | a second endpoint never raises confirmations and never changes the terms |
| `AmoyVerifier.ConfirmationsExactly` | crates/nimmesh-core/src/amoy_swap_verifier.rs:195-206 | maximal confirmations exactly when every wired endpoint calls the block final and it is not above the head; otherwise the depth |
| `AmoyVerifier.ReportedDepth` | crates/nimmesh-core/src/amoy_swap_verifier.rs:456-480 | the confirmations of every report: 2^32-1 for a block final everywhere, otherwise min(lowest head - block + 1, 2^32-1), at least 1 |
| `AmoyVerifier.DepthBoundedBySecondary` | crates/nimmesh-core/src/amoy_swap_verifier.rs:195-206 | with a second endpoint the depth never exceeds what its own head allows, unless its own finalized tag covers the block |
| `AmoyVerifier.HonestFundingClearsFloor` | crates/nimmesh-core/src/amoy_swap_verifier.rs:59-76 | a found, honestly funded escrow meets the expected floor exactly under the slack condition |
| `AmoyVerifier.RecordedWasLiveEverywhere` | crates/nimmesh-core/src/amoy_swap_verifier.rs:456-465 | over every run of hints and observations, each recorded escrow was seen as the earliest live log, Live on all endpoints wired then |
| `AmoyVerifier.VisibleIff` | crates/nimmesh-core/src/amoy_swap_verifier.rs:404-466 | a listing endpoint finds an escrow exactly when the heads agree and the earliest live log at most five blocks below the anchor is Live on every wired endpoint |
| `AmoyVerifier.FoundIsInSight` | crates/nimmesh-core/src/amoy_swap_verifier.rs:404-454 | nothing further below the anchor is ever found; with one endpoint any live log in that range is |
| `AmoyVerifier.LateAnchorHides` | crates/nimmesh-core/src/amoy_swap_verifier.rs:316-335 | once an anchor is fixed more than five blocks above the escrow, no later run and no later hint finds it |
| `AmoyVerifier.OwnHintFinds` | crates/nimmesh-core/src/amoy_swap_verifier.rs:316-335 | a store that heard only the hint of the escrow's funding transaction finds it exactly when the heads agree and the earliest live log near it is Live everywhere; with one endpoint always |
| `AmoyVerifier.ForgedHintHides` | crates/nimmesh-core/src/amoy_swap_verifier.rs:316-335 | the failing input: a hint of a later transaction looked up first hides the escrow for good, though its own hint alone finds it |
| `AmoyVerifier.HintsBounded` | crates/nimmesh-core/src/amoy_swap_verifier.rs:291-298 | over every run the hints are distinct and at most 32 |
| `AmoyVerifier.AnchorIsFixed` | crates/nimmesh-core/src/amoy_swap_verifier.rs:316-335 | over every run a resolved anchor never moves and hints are only appended |
| `Mnemonic.Init` | apple/NimmeshApp/Sources/Mnemonic.swift:25-30 | the index maps every listed word to a position of it and nothing else |
| `Mnemonic.GroupSpread` | apple/NimmeshApp/Sources/Mnemonic.swift:49-62 | cutting spread groups again gives the numbers back |
| `Mnemonic.SpreadGroup` | apple/NimmeshApp/Sources/Mnemonic.swift:49-62 | spreading the groups of a bit string gives its bits back |
| `Mnemonic.SpreadIsBigEndian` | apple/NimmeshApp/Sources/Mnemonic.swift:104-109 | the bits of bytes, read as one binary number, are the big-endian number of the bytes |
| `Mnemonic.ChecksumIsHashPrefix` | apple/NimmeshApp/Sources/Mnemonic.swift:49-62 | the checksum is the leading bits of the hash, one per four bytes |
| `Mnemonic.MnemonicIsEntropyAndHash` | apple/NimmeshApp/Sources/Mnemonic.swift:49-62 | the eleven-bit numbers of the words are the bits of the entropy followed by those leading bits |
| `Mnemonic.BitArray` | apple/NimmeshApp/Sources/Mnemonic.swift:104-109 | the nested loop appends the bits of every byte, most significant first |
| `Mnemonic.FromEntropy` | apple/NimmeshApp/Sources/Mnemonic.swift:49-62 | the encoder's loops compute the specified word list, or nothing for a bad length |
| `Mnemonic.ToEntropy` | apple/NimmeshApp/Sources/Mnemonic.swift:66-85 | the decoder's loops compute the specified entropy, or nothing for a bad length, word or checksum |
| `Mnemonic.FillEntropy` | apple/NimmeshApp/Sources/Mnemonic.swift:77-78 | or-ing bits into a zeroed buffer yields exactly the given bits |
| `Mnemonic.WithBitSets` | apple/NimmeshApp/Sources/Mnemonic.swift:78-78 | or-ing one bit sets that bit and no other |
| `Mnemonic.DecodeEncode` | apple/NimmeshApp/Sources/Mnemonic.swift:49-85 | decoding the mnemonic of any entropy of 16, 20, 24, 28 or 32 bytes returns it, for any hash and any 2048 distinct words |
| `Mnemonic.DecodeEncodeIff` | apple/NimmeshApp/Sources/Mnemonic.swift:25-85 | for a list with repetitions the round trip works exactly for the entropies whose words the index leads back to their own numbers |
| `Mnemonic.EncodeDecode` | apple/NimmeshApp/Sources/Mnemonic.swift:49-85 | every word list that decodes is the mnemonic of its entropy |
| `Mnemonic.PhraseRoundTrip` | apple/NimmeshApp/Sources/Mnemonic.swift:49-102 | the joined phrase decodes back too, when normalisation leaves the listed words alone |
| `Mnemonic.CharwiseRoundTrip` | apple/NimmeshApp/Sources/Mnemonic.swift:49-102 | in particular for character-wise lower-casing and words of lower-case characters |
| `Mnemonic.PhraseIsCanonical` | apple/NimmeshApp/Sources/Mnemonic.swift:66-102 | every phrase that decodes normalises to the mnemonic of its entropy |
| `LogScan.ScanChunks` | apple/NimmeshApp/Sources/PolygonReads.swift:132-150 | the chunk loop computes the specified pass and ends by (blocks left, step) |
| `LogScan.ScanStore.ScanAndMerge` | apple/NimmeshApp/Sources/PolygonReads.swift:121-158 | a pass changes watermark and cache exactly as specified and returns the cached rows |
| `LogScan.WatermarkNeverSkips` | apple/NimmeshApp/Sources/PolygonReads.swift:121-158 | over any passes, heads and failures on a stable chain, every block from the initial anchor to the watermark lies in a chunk read successfully, and every transfer in a chunk read is cached |
| `LogScan.NothingIsLost` | apple/NimmeshApp/Sources/PolygonReads.swift:121-158 | whatever passes follow, the watermark never decreases and no cached row is lost |
| `LogScan.EveryTransferCached` | apple/NimmeshApp/Sources/PolygonReads.swift:121-158 | every transfer between the initial anchor and the watermark is in the cache |
| `LogScan.CleanPassReachesHead` | apple/NimmeshApp/Sources/PolygonReads.swift:121-158 | a pass without failures brings the watermark just past the head |
| `LogScan.SmallRangesReachHead` | apple/NimmeshApp/Sources/PolygonReads.swift:132-150 | an endpoint that serves every range of at most 1000 blocks lets every pass reach the head |
| `LogScan.StepKeepsHalf` | apple/NimmeshApp/Sources/PolygonReads.swift:132-150 | with an endpoint that serves ranges of up to n blocks the step of a pass never falls below half of n |
| `LogScan.CleanPassReadsHead` | apple/NimmeshApp/Sources/PolygonReads.swift:131-150 | a pass without failures ends with a chunk up to the head, even when the watermark is past it |
| `LogScan.FailedPassChangesNothing` | apple/NimmeshApp/Sources/PolygonReads.swift:144-157 | a pass in which every request fails changes neither watermark nor cache |
| `HexDecimal.HexToDecimalString` | apple/NimmeshApp/Sources/PolygonReads.swift:271-285 | the digit loops yield the exact value in decimal without leading zero, for every text |
| `HexDecimal.HexDigitIff` | apple/NimmeshApp/Sources/PolygonReads.swift:261-277 | a character reads as d exactly when it is the hex digit d in either case, plain or fullwidth |
| `HexDecimal.DecimalIsUnique` | apple/NimmeshApp/Sources/PolygonReads.swift:271-285 | a decimal text without leading zero is determined by its value |
| `HexDecimal.ClampedOnHex` | apple/NimmeshApp/Sources/PolygonReads.swift:256-267 | on a hex text, with or without 0x, the clamped reading is min(value, 2^63-1) |
| `HexDecimal.ClampedHex` | apple/NimmeshApp/Sources/PolygonReads.swift:256-267 | the 64-bit loop computes the clamped reading; a foreign character gives zero unless the digits before it overflow |
| `Protobuf.ReadInvertsWrite` | shared/MeshtasticFrame.swift:167-243 | reading inverts writing for every 64-bit value, whatever follows |
| `Protobuf.ReadIsExactIff` | shared/MeshtasticFrame.swift:229-243 | a varint is read at full value exactly when it has fewer than ten groups or its tenth group is 0 or 1 |
| `Protobuf.TenthGroupIsCut` | shared/MeshtasticFrame.swift:229-243 | the failing input: nine empty groups and a tenth of two read as zero |
| `Protobuf.WriteVarint` | shared/MeshtasticFrame.swift:167-177 | the loop writes the specified groups |
| `Protobuf.ReadVarintAt` | shared/MeshtasticFrame.swift:229-243 | the shifting loop reads the specified value and position |
| `Protobuf.TurnInverts` | shared/MeshtasticFrame.swift:188-227 | one turn of the scanner on a serialised field shows that field and stops right after it |
| `Scanner.ScanInvertsSerialise` | shared/MeshtasticFrame.swift:188-227 | scanning the serialisation of any fields visits exactly those fields in order, up to where the visitor stops |
| `Scanner.ScanLoop` | shared/MeshtasticFrame.swift:188-227 | the index loop visits what the specification visits and ends the same way |
| `Scanner.ScanTrapsIff` | shared/MeshtasticFrame.swift:188-227 | the scan traps exactly when its walk reaches, without stopping, a key of wire type 2 whose length exceeds the largest signed 64-bit integer |
| `Meshtastic.DecodeTrapsIff` | shared/MeshtasticFrame.swift:133-152 | decoding a radio frame traps exactly when one of its lookups walks into such a length |
| `Meshtastic.HugeLengthTraps` | shared/MeshtasticFrame.swift:217-220 | any frame that starts with such a field traps, whatever its number and whatever follows |
| `Meshtastic.ElevenBytesTrap` | shared/MeshtasticFrame.swift:217-220 | the failing input: an eleven-byte frame |
| `Meshtastic.ShortFramesNeverTrap` | shared/MeshtasticFrame.swift:217-220 | no frame of ten bytes or fewer traps |
| `Meshtastic.EncodeToRadio` | shared/MeshtasticFrame.swift:79-117 | writes the nested messages, or refuses a payload over 221 bytes with both sizes |
| `Meshtastic.FirstFieldIsFirst` | shared/MeshtasticFrame.swift:245-252 | a lookup in a serialised message finds the first field of that number and wire type |
| `Meshtastic.Fixed32RoundTrip` | shared/MeshtasticFrame.swift:179-184 | the four little-endian bytes read back to the number |
| `Meshtastic.RadioRoundTrip` | shared/MeshtasticFrame.swift:79-152 | the mesh packet of every frame, with any well-formed fields of other numbers mixed in at both levels, decodes to the same payload on port 256 with the sender the radio named |
| `Meshtastic.PlainRoundTrip` | shared/MeshtasticFrame.swift:79-152 | the same with nothing mixed in, from the frame itself |
| `Meshtastic.HeaderReadsBack` | shared/MeshtasticFrame.swift:79-117 | fields 2, 6 and 9 of the mesh packet read back to destination, packet id and hop limit |
| `Meshtastic.DataReadsBack` | shared/MeshtasticFrame.swift:89-117 | field 4 holds the message, with port 256 as its field 1 and the payload as its field 2 |
| `Meshtastic.DataDecodesExactly` | shared/MeshtasticFrame.swift:145-151 | any message decodes to nothing unless its first port is 256, to its first payload if it has one, and to an error otherwise |
| `Meshtastic.FrameDecodesExactly` | shared/MeshtasticFrame.swift:133-152 | any frame with a packet and a message decodes to what that message says, from the sender the packet names |
| `Meshtastic.ForeignFramesAreIgnored` | shared/MeshtasticFrame.swift:133-141 | a frame without a packet, or a packet without a message, is nothing and no error |
| `Meshtastic.Fixed32IsLittleEndian` | shared/MeshtasticFrame.swift:179-184 | fixed-width numbers are written least significant byte first |
| `BleLinks.Radio.LinkUp` | apple/NimmeshApp/Sources/BleMeshRadio.swift:89-92 | the count stays the number of linked roles; the callback fires exactly when the union gains the peer |
| `BleLinks.Radio.LinkDown` | apple/NimmeshApp/Sources/BleMeshRadio.swift:93-97 | the count stays the number of linked roles, absent at zero; the callback fires exactly when the union loses the peer |
| `BleLinks.Radio.DidDiscoverCharacteristics` | apple/NimmeshApp/Sources/BleMeshRadio.swift:183-190 | the counting event is the set-union event |
| `BleLinks.Radio.DidDisconnectPeripheral` | apple/NimmeshApp/Sources/BleMeshRadio.swift:197-203 | the counting event is the set-union event |
| `BleLinks.Radio.DidSubscribe` | apple/NimmeshApp/Sources/BleMeshRadio.swift:233-239 | the counting event is the set-union event |
| `BleLinks.Radio.DidUnsubscribe` | apple/NimmeshApp/Sources/BleMeshRadio.swift:241-246 | the counting event is the set-union event |
| `BleLinks.Radio.RunReplay` | apple/NimmeshApp/Sources/BleMeshRadio.swift:34-47 | the replay adds every counted peer to the captured node and removes none |
| `BleLinks.NobodyIsMissed` | apple/NimmeshApp/Sources/BleMeshRadio.swift:34-47 | in every reachable state the current node, its replay done, knows every linked peer |
| `BleLinks.AgreesExactlyWhenNoStalePeerIsLeft` | apple/NimmeshApp/Sources/BleMeshRadio.swift:34-47 | after an install and its replay the peer set equals the union exactly when every unlinked peer the node brought along has been linked since |
| `BleLinks.UnionInEveryState` | apple/NimmeshApp/Sources/BleMeshRadio.swift:34-97 | when every install brings a node without unlinked peers, the peer set is the union in every reachable state with no replay queued |
| `BleLinks.RestoredNodeKeepsGonePeer` | apple/NimmeshApp/Sources/BleMeshRadio.swift:34-47 | without that, it fails: a node swapped out and restored keeps a peer that left meanwhile |
| `BleLinks.CallbacksAlternate` | apple/NimmeshApp/Sources/BleMeshRadio.swift:86-97 | in every run each id's callbacks alternate, beginning with a connect, and the last one says whether it is linked |

## Left out

- Worker.Worker.DispatchPacket: fragments and history queries are dropped, because reassembly and fragmentation are not
  modelled; swap packets are carried as by a node that takes no part in swaps, so a participant's replies are missing.
- Worker.Worker.ProcessInbound: the same holds for the frames it dispatches.
- Worker.Worker.Do: the same holds for the frames it is given.
- Convergence.HeightsAgreeIff: at most 2048 different relay keys, so that the dedup cache forgets none; with more, a frame
  dropped once can be handled when it comes again.
- Handlers.ServedIff: the cache stands in time order, which `Handlers.KeepTidy` keeps while the clock does not run back.
- The swap session, coordinator, signers, discovery and the NIM verifier.
- Cryptography: SHA-256, Keccak, Ed25519 and secp256k1 are arbitrary functions; key handling is not modelled.
- GCS filter internals: whether a filter parses and what it covers are arbitrary functions.
- Relay probability, battery posture, jitter and rate limiter: free choices, so every theorem holds whatever they decide.
- Peer sets of a node are sequences without repetition, so the order of sends is fixed where a hash set leaves it open.
- Frames in flight are packets; `Network.FlightIsBytes` connects them to bytes on every run. Corrupted or forged frames are
  not part of the honest network, though a single node's theorems hold for any packet.
- Counters and metrics of the worker, threads, locks and `catch_unwind`: each job is one atomic step.
- HTTP, JSON, CoreBluetooth, UserDefaults and the page bridge: chains and links are read oracles and event sources. Within one
  observation an endpoint answers the same question the same way.
- Network.OriginBytesLanded: asks that no two originated wires of the run share a txId, which stands for the hash being injective.
- Htlc.ScriptMeansContract: consensus rules only; the relay policies MINIMALIF and NULLFAIL, which would refuse some accepted
  witnesses, are not modelled.
- Htlc.SignSpend: the sighash, the key and DER are arbitrary functions, and serialising the transaction is not modelled.
- BtcVerifier.Scan: output indices are unbounded, where the source casts them to 32 bits.
- Mnemonic.PhraseRoundTrip: lower-casing is any function that leaves phrases of listed words alone; grapheme clusters are
  single characters.
- Mnemonic.FillEntropy: the buffer is a value replaced byte by byte; updating it in place is not captured.
- LogScan.WatermarkNeverSkips: the chain is stable, answers to a range are complete, and a transaction hash with a log index
  names one transfer; reorganisations are not modelled.
- Meshtastic.RadioRoundTrip: payload limits only; the radio link itself is not modelled.
- BleLinks.CallbacksAlternate: counts the calls made to the node variable, heard or not; replay calls are left out of it.
- `shared/BitchatKit.swift`, `chat.rs`, `balance_proof.rs`, `evm_abi.rs`, `evm_forward.rs`, the cashlink codec, backup, citizen
  thresholds and providers: easier variants or finite branching.
