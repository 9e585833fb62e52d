# LiveCDN: relay, codec, mesh and scheduling, modelled and proved

LiveCDN moves live streams from an origin through edge agents (Rust) to viewers, under a controller (Go).
This project models the parts of both that are state machines or codecs and proves what they keep over
whole runs.

- **Relay.** `Bytes`, `FlvTag`, `FlvParser`, `FlvOutput`, `FlvPuller`: the incremental FLV parser, its printer,
  and the pull loop that broadcasts each tag and then caches it. The format is that of the Adobe Flash Video
  File Format Specification v10.1, Annex E. `GopHistory` says what a new viewer should be sent as a function of
  the whole tag history; `GopCache` is the mutable ring that is proved to hold exactly that. `Backpressure` is
  the drop policy of one viewer, `ClientJoin` the race between the puller and a joining viewer. The HTTP and the
  WebSocket server join and serve viewers by the same steps (`agent-rust/src/main.rs:678-725` and `:424-487`).
- **Frames.** `FrameCodec` is the agent's codec with its incremental decoder, `GoCodec` the controller's; the
  two are proved to agree, with the exact exceptions.
- **Mesh.** `CascadeSelector` is the agent's upstream selector, method by method; `SelectorChoice` says what makes
  one candidate win over another. `SelectorTasks` is the same selector as several tasks use it at once: the
  heartbeat task, the ping loop and reporters of failures advance in steps, each of what one task does under one
  lock, and a task left alone has the effect of the method. `SelectorRuns` proves limiter, spacing and score
  ratchet over every interleaving, `SelectorRace` shows what an emergency switch between approval and application
  of another can do. `NodeStore` and `Mesh` are the controller's registry and candidate filter, `MeshProtocol` all
  of them together with restarting agents and with registrations and responses that are delayed, reordered,
  repeated or lost. `MeshAdvice` says what the registry holds of every node and when an agent is told to leave its
  upstream, `MeshCycles` which changes of configuration can close a cycle, `MeshLimits` that limiter and ratchet
  hold of every agent of the whole system.
- **Scheduling.** `Outliers` (ejection with escalation and effective weights), `P2c` (power of two choices),
  `Dispatch` (filter, scores, sticky nodes), `Latency` (automatic downgrade and recovery), `Backoff` (token
  bucket and reconnect delays).

Each class keeps the fields of the original and each of its methods is proved against a function of the old
state; the lemmas speak about those functions and about runs of them. Time is a parameter. Random draws are
arbitrary values of their range, so every statement holds for all of them. Whether a try-lock of
a selection succeeds is an arbitrary boolean. Floating-point numbers are reals.

## Where code and documentation disagree

The model follows the code; each point below has a lemma.

- The FLV header reader takes bytes 5 to 7 instead of the 4-byte DataOffset at 5 to 8 (Annex E.2), so of the 13
  header bytes only 4 are skipped (`FlvOutput.FreshConnectionLosesTags`). Round trips are therefore stated from
  the header-parsed state.
- Tags of 2^24 bytes or more would be printed with a size field that does not fit (`FlvOutput.BodyRoundTrip`). No
  such tag arises: every tag comes from the parser, whose size field has 24 bits (`FlvOutput.ParsedTagsFit`).
- "v2 compatible" covers two of the seven frame types and needs a byte more than a v2 header has
  (`FrameCodec.V2RoundTrip`). The controller compares lengths in 32 bits
  (`GoCodec.AgentAcceptsControllerAgrees`).
- A viewer snapshots the cache before it subscribes, while tags are broadcast before they are cached; the tags
  in between are lost (`ClientJoin.JoinGap`).
- "The ejection count is reset on recovery" holds only if a success is reported after the ejection ended and
  before the next cleanup (`Outliers.ResetRule`). New nodes start with weight 0.5, not 1.
- The latency mode after a downgrade, and an override of a session that has not reported, last until the next
  periodic check (`Latency.CheckForgetsDowngrade`, `Latency.CheckForgetsOverride`).
- The header comment of `packet_drop.rs` describes three levels of pressure; the code never drops audio by
  default, and skips to no keyframe (`Backpressure.DropRule`).
- "Only from a lower tier, so no loops" holds while at most one node has been entered into the registry on both
  tiers. Two agents that restart with swapped flags and are removed in between can end up pulling from each other
  (`MeshCycles.CyclesExactly`).
- "The lower the round-trip time, the higher the score" holds while a candidate has fewer than twice the children
  it allows; beyond that the local score is negative and the slower one wins (`SelectorChoice.FasterIsChosen`).
- "Two switches are a cooldown apart" is decided when a switch is approved. Another task may switch before the
  approved one is applied, and then the two are not apart (`SelectorRace.SpacingCanFail`; exactly when,
  `SelectorRuns.SwitchSpacing`). At most three voluntary switches in 300 s holds all the same.
- "A failed upstream is left at once" holds only if it is not the first best usable candidate of the last
  response: the upstream that failed is not excluded (`CascadeSelector.EmergencyStays`).
- The token bucket pays for every wait twice, so its long-run rate is above the configured one
  (`Backoff.PlainBoundFails`).

## Model

| member | source | states |
|---|---|---|
| FlvTag.TypeByteIsExact | agent-rust/src/relay/flv.rs:26-45 | the wire bytes are 8, 9 and 18, and each is the only byte read as its type |
| FlvTag.KindFromBytes | agent-rust/src/relay/gop_cache.rs:55-104 | what the cache does with a tag, told by nibbles and packet type: a keyframe opens a group only if it is no sequence header and, for AVC and HEVC, long enough to tell |
| FlvTag.PriorityFromBytes | agent-rust/src/relay/packet_drop.rs:56-75 | likewise what may never be dropped, and that inter frames alone are expendable |
| FlvTag.PriorityMatchesKind | agent-rust/src/relay/packet_drop.rs:56-75 | a tag is never dropped exactly when the cache keeps it in a header slot or opens a group with it |
| FlvParser.NextStep | agent-rust/src/relay/flv.rs:299-355 | one turn of the parse loop: whatever it cuts off the buffer is there and is not empty, so every `continue` shrinks the buffer |
| FlvParser.Drain | agent-rust/src/relay/flv.rs:299-384 | the inner loop terminates, stops only where it must wait for bytes or has rejected the stream, and never takes back a tag |
| FlvParser.StepStable | agent-rust/src/relay/flv.rs:299-355 | a decision taken on some bytes is not changed by the bytes after them |
| FlvParser.DrainThenFeed | agent-rust/src/relay/flv.rs:295-384 | draining and then receiving more ends in the same state as receiving everything and draining once |
| FlvParser.ChunkInvariance | agent-rust/src/relay/flv.rs:290-385 | for every byte string and every two ways of cutting it into chunks: the same tags, leftover buffer, header flag, or the same rejection |
| FlvParser.RejectedExactly | agent-rust/src/relay/flv.rs:300-318 | a stream is rejected if and only if nine bytes have come and do not start with FLV; nothing after the header rejects it |
| FlvParser.HeaderThenTags | agent-rust/src/relay/flv.rs:300-318 | where the first tag is looked for: four bytes past the number at bytes 5 to 7 |
| FlvParser.DrainConserves | agent-rust/src/relay/flv.rs:320-384 | no byte belongs to two tags: the emitted tags' wire sizes and the leftover fit into the bytes received |
| FlvPuller.ParseBuffer | agent-rust/src/relay/flv.rs:299-384 | the loop over the growing buffer computes `Drain`; what it broadcasts and what it caches is the same list of tags, in order |
| FlvPuller.PullFlvStream | agent-rust/src/relay/flv.rs:286-388 | a whole connection: the broadcast log and the cache history grow by exactly the tags of the bytes read, and the three endings are told apart |
| FlvPuller.PullDependsOnBytes | agent-rust/src/relay/flv.rs:290-385 | the state a connection ends in is a function of the bytes read before the flag drops, an error or the end |
| FlvPuller.SameBytesSameTags | agent-rust/src/relay/flv.rs:290-385 | two connections that read the same bytes relay the same tags, however each was chunked |
| FlvOutput.BuildFlvHeader | agent-rust/src/relay/flv_output.rs:14-27 | the 13 header bytes, including the 4-byte DataOffset 9 |
| FlvOutput.BuildFlvTagWire | agent-rust/src/relay/flv_output.rs:31-67 | pushes exactly the wire form of the tag, for every data length, with the length cast to 32 bits on the way |
| FlvOutput.TruncationKeepsLowBytes | agent-rust/src/relay/flv_output.rs:32-64 | the 32-bit cast of the length cannot change the size field or the trailing size |
| FlvOutput.WireLayout | agent-rust/src/relay/flv_output.rs:31-67 | every field of a printed tag, by its place: type, 24-bit size, timestamp with its high byte last, stream 0, data, and in the last four bytes the size of all that |
| FlvOutput.LastTagFromEnd | agent-rust/src/relay/flv_output.rs:60-66 | so a printed stream can be walked backwards, each trailing size leading to the start of its tag |
| FlvOutput.BuildAll | agent-rust/src/main.rs:678-684 | the startup burst is the concatenation of the wire forms |
| FlvOutput.HeaderFields | agent-rust/src/relay/flv.rs:325-342 | the parser reads type and 32-bit timestamp back exactly, and the size modulo 2^24 |
| FlvOutput.WholeTagsIsGreatest | agent-rust/src/relay/flv.rs:344-348 | the number of tags counted as whole is the largest whose wire forms fit into the first k bytes |
| FlvOutput.PrefixRoundTrip | agent-rust/src/relay/flv.rs:320-368 | parsing any prefix of a printed tag list yields exactly the tags wholly in it and leaves exactly the partial tail |
| FlvOutput.OversizedTagCorrupts | agent-rust/src/relay/flv_output.rs:40-43 | if any tag has 2^24 data bytes or more, the list cannot come back, not even as a prefix of what is parsed |
| FlvOutput.BodyRoundTrip | agent-rust/src/relay/flv_output.rs:31-67 | parse after print is the identity with an empty buffer if and only if every tag has fewer than 2^24 data bytes |
| FlvOutput.ChainPreservesTags | agent-rust/src/relay/flv.rs:290-385 | through any number of relays, all past their headers and each cutting the stream into chunks its own way, every tag that fits keeps type, timestamp and data |
| FlvOutput.ParsedTagsFit | agent-rust/src/relay/flv.rs:335-348 | whatever bytes arrive, every tag the parser emits fits the 24-bit size field |
| FlvOutput.RelayedTagsSurvive | agent-rust/src/relay/flv.rs:290-385 | so whatever the first agent parses, every agent of a chain behind it that is past its header receives intact, with no condition on sizes |
| FlvOutput.FreshConnectionLosesTags | agent-rust/src/relay/flv.rs:300-318 | behind the header this relay itself prints, the parser recovers the tag list only if it is empty |
| GopHistory.StartupMediaExact | agent-rust/src/relay/gop_cache.rs:203-268 | the kept media positions are exactly those of tags that, by their bytes, are no script and no sequence header, have a keyframe, at most gop_count keyframes after them, and fewer than max(1, limit) media tags between their keyframe and them |
| GopHistory.StartupMediaShape | agent-rust/src/relay/gop_cache.rs:279-325 | the media part is in source order, its first tag is by its bytes a keyframe, and it is at most (gop_count + 1) * max(1, limit) long |
| GopHistory.StartupPositionsDistinct | agent-rust/src/relay/gop_cache.rs:279-325 | no source tag is sent twice at startup |
| GopHistory.SlotsFromBytes | agent-rust/src/relay/gop_cache.rs:203-224 | the header part is the last script tag, the last AAC header and the last video header of the history, by their bytes |
| GopHistory.HeadersComeFirst | agent-rust/src/relay/gop_cache.rs:279-325 | a viewer is sent metadata, then the AAC header, then the video header, then everything else |
| GopHistory.NewestKeyframeIsSent | agent-rust/src/relay/gop_cache.rs:226-268 | whatever the configuration, the newest keyframe of the history is sent |
| GopHistory.GroupsIncrease | agent-rust/src/relay/gop_cache.rs:232-244 | cutting the history into keyframe-led groups keeps the order and invents no position |
| GopHistory.EveryTagPlaced | agent-rust/src/relay/gop_cache.rs:250-268 | a tag in a group is led by that group's keyframe, at the offset of the media tags between, and as many keyframes follow as later groups |
| GopHistory.FindPlace | agent-rust/src/relay/gop_cache.rs:226-247 | conversely every media tag with a keyframe before it lies in some group |
| GopCache.GopCache.AddTag | agent-rust/src/relay/gop_cache.rs:203-247 | after any tag the ring, the open group and the three slots still agree with the whole history |
| GopCache.GopCache.AddToCurrentGop | agent-rust/src/relay/gop_cache.rs:250-257 | joins the open group unless it is full; without one the tag is lost |
| GopCache.GopCache.FinalizeCurrentGop | agent-rust/src/relay/gop_cache.rs:260-268 | the open group moves to the ring and the eviction loop leaves the last gop_count groups |
| GopCache.GopCache.Clear | agent-rust/src/relay/gop_cache.rs:349-357 | the history starts over |
| GopCache.GopCache.GetStartupTags | agent-rust/src/relay/gop_cache.rs:279-325 | returns the last script tag, the last AAC header, the last video header and the kept groups of the history, in this order |
| GopCache.GopCache.GetStats | agent-rust/src/relay/gop_cache.rs:333-346 | the statistics are those of the history: cached frames are the startup media, the flags tell whether such a header was ever added |
| GopCache.TracksStep | agent-rust/src/relay/gop_cache.rs:203-247 | one tag takes slots and groups from agreeing with a history to agreeing with the longer one |
| GopCache.KeptStep | agent-rust/src/relay/gop_cache.rs:250-268 | the eviction and the size limit applied tag by tag keep exactly the last gop_count + 1 groups of the history, each cut to the limit |
| Backpressure.BackpressureTracker.CheckDrop | agent-rust/src/relay/packet_drop.rs:160-170 | the verdict and all counters of one check |
| Backpressure.BackpressureTracker.RelievePressure | agent-rust/src/relay/packet_drop.rs:152-157 | one written tag takes one off the lag and ends the run of drops |
| Backpressure.SendLoop | agent-rust/src/main.rs:702-725 | the viewer loop writes exactly the tags at the positions `Serve` names and its counters are those of the run |
| Backpressure.ServeConserves | agent-rust/src/relay/packet_drop.rs:117-170 | packets = written + dropped throughout, and writing keeps the order of arrival |
| Backpressure.SentIsNotDropped | agent-rust/src/main.rs:704-715 | written are exactly the received tags that the policy did not drop |
| Backpressure.LagFromHistory | agent-rust/src/relay/packet_drop.rs:147-157 | the lag counter is what is left of the last notice after the tags written, or equally after the tags other than inter frames received, since then |
| Backpressure.DropRule | agent-rust/src/relay/packet_drop.rs:87-111 | after Lagged(n) exactly the inter frames before the n-th following write are dropped, told by the bytes and the history alone |
| Backpressure.DropRuleUnderPolicy | agent-rust/src/relay/packet_drop.rs:87-111 | under any policy: inter frames as before; other tags that are no header and no keyframe only where audio may be dropped and more writes than the threshold are outstanding |
| Backpressure.HighIsNeverDropped | agent-rust/src/relay/packet_drop.rs:87-93 | keyframes, sequence headers and metadata, by their bytes, reach the viewer under every policy and lag |
| ClientJoin.StepKeepsInv | agent-rust/src/main.rs:678-725 | every step of puller and viewer keeps the invariant of the join protocol |
| ClientJoin.NoTagTwice | agent-rust/src/main.rs:678-715 | in every interleaving no source tag is written twice, and group tags followed by live tags are in source order |
| ClientJoin.OnlyInterOrLaggedIsLost | agent-rust/src/main.rs:702-725 | a live tag that is not an inter frame is written unless the channel overwrote it |
| ClientJoin.ViewerIsServed | agent-rust/src/main.rs:697-725 | in every run of the join protocol the viewer's lag and written tags are those of the send loop on the events it received |
| ClientJoin.EventsAreOfLog | agent-rust/src/main.rs:702-704 | position and tag of every received event are those of the broadcast log |
| ClientJoin.ViewerDropRule | agent-rust/src/main.rs:702-725 | of the tags a joined viewer receives it loses exactly the inter frames before the n-th write after Lagged(n) |
| ClientJoin.CountsOfRun | agent-rust/src/relay/flv.rs:371-374 | the cache lags the broadcast log by the tags not yet fed to it |
| ClientJoin.NoLagSendsAll | agent-rust/src/main.rs:702-716 | without a lag notice the viewer is sent every tag from its subscription on |
| ClientJoin.JoinGap | agent-rust/src/main.rs:678-697 | without lag, of the tags cached after the snapshot exactly those broadcast before the subscription are missing |
| ClientJoin.RaceLosesKeyframe | agent-rust/src/relay/flv.rs:371-374 | a keyframe broadcast but not yet cached at the snapshot is lost for good |
| FrameCodec.Encode | agent-rust/src/protocol/mod.rs:103-117 | produces the v3 layout for every frame, with the length cast to 32 bits |
| FrameCodec.Decode | agent-rust/src/protocol/mod.rs:121-168 | a decoded frame consumes at least a header and never more than the bytes there are |
| FrameCodec.DecodeVerdict | agent-rust/src/protocol/mod.rs:121-168 | 21 bytes are needed to look; then decoding fails if and only if the magic is not HT, the type is not 1 to 7 or the length exceeds 2^20, and succeeds if and only if the payload is there |
| FrameCodec.DecodeErrors | agent-rust/src/protocol/mod.rs:121-205 | which of the three errors is reported, and with what |
| FrameCodec.DecodeStable | agent-rust/src/protocol/mod.rs:121-205 | a frame or an error, once decided, is the same whatever bytes follow |
| FrameCodec.FrameRoundTrip | agent-rust/src/protocol/mod.rs:103-168 | decode after encode is the identity if and only if the version is at least 3 and the payload at most 2^20 |
| FrameCodec.DecodeNeedsWholeFrame | agent-rust/src/protocol/mod.rs:150-153 | on every proper prefix of an encoded frame the decoder asks for more |
| FrameCodec.V2RoundTrip | agent-rust/src/protocol/mod.rs:170-205 | a v2 frame is understood if and only if its type byte is below 3, it fits, and a 21st byte has arrived |
| FrameCodec.FrameDecoder.Feed | agent-rust/src/protocol/mod.rs:318-320 | appends to the buffer, as one step of a run |
| FrameCodec.FrameDecoder.TryDecode | agent-rust/src/protocol/mod.rs:323-331 | one decode call is one step of a run: a frame leaves the buffer, nothing or an error leaves it alone |
| FrameCodec.RunOnTrack | agent-rust/src/protocol/mod.rs:306-337 | in any interleaving of feeds and decodes the frames are a prefix of those sent, no call fails, and consumed bytes followed by the buffer are the bytes fed |
| FrameCodec.PullStep | agent-rust/src/protocol/mod.rs:323-331 | on a prefix of encoded frames a decode call returns the next frame as soon as it is whole, and only then |
| FrameCodec.DrainYieldsAll | agent-rust/src/protocol/mod.rs:323-331 | once all is fed, as many decode calls as frames are outstanding return them all and empty the buffer |
| FrameCodec.FailureIsPermanent | agent-rust/src/protocol/mod.rs:323-331 | after one failure every later decode call returns the same error, whatever is fed |
| GoCodec.MarshalFrame | internal/protocol/protocol.go:49-67 | fills the buffer index by index with the agent's v3 layout, version 0 as 3, or refuses a payload over 2^20 |
| GoCodec.AgentAcceptsControllerAgrees | internal/protocol/protocol.go:71-135 | whatever the agent decodes, v2 or v3, the controller reads as the same frame, unless its 32-bit length comparison wraps (exact result in that case) |
| GoCodec.FrameSlicesAgree | internal/protocol/protocol.go:71-135 | cut to the frame, the two decoders agree without exception |
| GoCodec.SameFramesAccepted | internal/protocol/protocol.go:71-135 | from 21 bytes up to 4 GiB the agent accepts exactly what the controller accepts with a known type |
| GoCodec.ShortBuffersDisagree | internal/protocol/protocol.go:99-124 | below 21 bytes the agent always waits while the controller may read a v1 or an empty v2 frame |
| GoCodec.AgentReadsController | internal/protocol/protocol.go:49-67 | the agent reads back a marshalled frame, version 0 as 3, if and only if its type is known and its version is not 1 or 2 |
| GoCodec.ControllerRoundTrip | internal/protocol/protocol.go:49-135 | the controller reads back its own frame if and only if its version is not 1 or 2 |
| GoCodec.OldVersionsDoNotReturn | internal/protocol/protocol.go:99-123 | no frame marshalled with version 1 or 2 comes back, whatever its fields |
| GoCodec.V1RoundTrip | internal/protocol/protocol.go:99-113 | a v1 frame is read back if and only if its type byte is below 3 and it is shorter than 20 bytes |
| GoCodec.ControllerReadsAgent | agent-rust/src/protocol/mod.rs:103-117 | the controller reads every frame the agent can stream |
| Bytes.FromToBE | internal/protocol/protocol.go:62-64 | writing a number big-endian in w bytes keeps exactly its residue modulo 256^w |
| Bytes.ToFromBE | internal/protocol/protocol.go:94-97 | and every byte string is the writing of the number it spells |
| CascadeSelector.SelectIsBest | agent-rust/src/relay/cascade_selector.rs:291-375 | the choice is a usable candidate, no usable candidate scores higher, and there is none only if nothing is usable, whichever locks are busy |
| CascadeSelector.SelectIsFirstBest | agent-rust/src/relay/cascade_selector.rs:355-375 | of several candidates that score best the first in the list is chosen |
| SelectorChoice.ScorePrefers | agent-rust/src/relay/cascade_selector.rs:324-412 | a candidate behind in nothing does not score lower, and one ahead in something scores higher: hint, children, 4 Mbps, tier 1, region and provider, IPv6, band of round-trip time; without room only hint and children count |
| SelectorChoice.BeatenIsNotChosen | agent-rust/src/relay/cascade_selector.rs:291-375 | so no list of candidates leads to one that a usable one beats |
| SelectorChoice.FasterIsChosen | agent-rust/src/relay/cascade_selector.rs:324-340 | of two alike the one in the faster band (10, 50, 100, 200 ms; probes of 60 s or more and busy locks count as unknown) is chosen if and only if they have fewer than twice the children allowed, ties aside |
| SelectorChoice.ChosenPassesGuard | agent-rust/src/relay/cascade_selector.rs:154-175 | with the guard free the choice is never the agent itself nor on a tier at the depth bound, and its address is that of an allowed candidate |
| SelectorChoice.NegativePolicyFields | agent-rust/src/relay/cascade_selector.rs:433-458 | a negative cooldown never ends and a negative limit is no limit, for both are cast to unsigned |
| CascadeSelector.CascadeSelector.SelectFromCandidates | agent-rust/src/relay/cascade_selector.rs:291-375 | the scoring loop computes `Select` |
| CascadeSelector.CascadeSelector.CheckSwitch | agent-rust/src/relay/cascade_selector.rs:420-477 | verdict and pruned switch times of the five hysteresis rules |
| CascadeSelector.CascadeSelector.UpdateMeshMap | agent-rust/src/relay/cascade_selector.rs:252-287 | the whole new state after a controller response |
| CascadeSelector.CascadeSelector.ApplyPathSwitch | agent-rust/src/relay/cascade_selector.rs:486-504 | path, time and count of a switch are recorded, nothing else changes |
| CascadeSelector.CascadeSelector.ForceReselect | agent-rust/src/relay/cascade_selector.rs:480-483 | a forced choice is made and recorded without asking hysteresis |
| CascadeSelector.CascadeSelector.ReportUpstreamFail | agent-rust/src/relay/cascade_selector.rs:545-562 | from the third failure in a row on, each failure reselects at once, without hysteresis |
| CascadeSelector.CascadeSelector.EmergencySwitch | agent-rust/src/relay/cascade_selector.rs:566-576 | reselects from the last response; without one falls back to the origin and records no switch |
| CascadeSelector.EmergencyStays | agent-rust/src/relay/cascade_selector.rs:566-576 | the failed upstream is not excluded: an emergency switch chooses it again exactly when it is the first best usable candidate of the last response |
| CascadeSelector.CascadeSelector.RunMeshPing | agent-rust/src/relay/cascade_selector.rs:581-625 | stores the probe of every usable candidate and reselects if the upstream is unreachable |
| SelectorTasks.SelectIsPicked | agent-rust/src/relay/cascade_selector.rs:291-375 | what a selection chooses without interruption is among the choices allowed to one that other tasks interrupt |
| SelectorTasks.UpdateAlone | agent-rust/src/relay/cascade_selector.rs:252-287 | the steps of one response, uninterrupted, have the effect of the whole method |
| SelectorTasks.EmergencyAlone | agent-rust/src/relay/cascade_selector.rs:566-576 | so have the steps of an emergency switch |
| SelectorTasks.FailureAlone | agent-rust/src/relay/cascade_selector.rs:545-562 | and those of a reported failure: the third in a row, and any after it, ends in the emergency switch |
| SelectorTasks.PingAlone | agent-rust/src/relay/cascade_selector.rs:581-625 | and those of a ping, which raise the alarm exactly when the method switches |
| SelectorRuns.EffectIsFaithful | agent-rust/src/relay/cascade_selector.rs:420-504 | the classification of steps used below is what the code does to path, last switch time and recorded switches |
| SelectorRuns.RetainIsSuffix | agent-rust/src/relay/cascade_selector.rs:448-450 | pruning a sorted list removes exactly a prefix |
| SelectorRuns.RetainCounts | agent-rust/src/relay/cascade_selector.rs:448-451 | despite earlier pruning, what is counted is the number of all switches recorded in the last 300 s |
| SelectorRuns.LimiterStep | agent-rust/src/relay/cascade_selector.rs:420-504 | every step of every task keeps the limiter invariant, also between approval and application of a switch |
| SelectorRuns.CoolingIsExact | agent-rust/src/relay/cascade_selector.rs:433-441 | the cooldown check passes if and only if the last switch time set lies a cooldown back |
| SelectorRuns.ApprovalIsLimited | agent-rust/src/relay/cascade_selector.rs:443-458 | at the approval fewer than the limit of switches of any kind were recorded in the 300 s before |
| SelectorRuns.ApprovalIsExact | agent-rust/src/relay/cascade_selector.rs:443-474 | the last check approves if and only if fewer than the limit were recorded in the 300 s before and the new score is better by the policy percentage of max(score, 0.01) |
| SelectorRuns.SwitchSpacing | agent-rust/src/relay/cascade_selector.rs:276-284 | when the approved switch takes effect, the last switch time set lies a cooldown back if and only if that of the switches other tasks made since the check does; of the switches recorded before the approval fewer than the limit lie in the 300 s before |
| SelectorRuns.StampsInOrder | agent-rust/src/relay/cascade_selector.rs:499-500 | switch times are set in order while no two tasks have read the clock for a switch at once |
| SelectorRuns.OrderedSpacing | agent-rust/src/relay/cascade_selector.rs:433-504 | in that case the spacing holds of all switch times ever set: all lie a cooldown back if and only if those set since the check do |
| SelectorRuns.WindowLimit | agent-rust/src/relay/cascade_selector.rs:443-458 | no half-open 300 s window holds more voluntary switches than the limit, whatever forced, emergency and origin transitions occur and wherever they cut into an update |
| SelectorRuns.ScoreBound | agent-rust/src/relay/cascade_selector.rs:324-340 | no final score exceeds 1.18 |
| SelectorRuns.ApprovalRaises | agent-rust/src/relay/cascade_selector.rs:460-472 | an approved choice scores at least 0.15 * max(score, 0.01) above the path it was compared with |
| SelectorRuns.VoluntaryRaisesScore | agent-rust/src/relay/cascade_selector.rs:460-472 | a voluntary switch raises the score it was compared with by at least 0.15 * max(score, 0.01), which is the stored score unless another task replaced the path in between |
| SelectorRuns.RatchetStep | agent-rust/src/relay/cascade_selector.rs:420-504 | every step of every task keeps the stored score between the climb since the last reset and 1.18 |
| SelectorRuns.FiniteFlapping | agent-rust/src/relay/cascade_selector.rs:460-474 | between two resets of the path at most 41 voluntary switches happen, plus those needed to climb out of a negative score; a voluntary switch that overwrites another path than it was compared with is a reset |
| SelectorRace.ThreeFailures | agent-rust/src/relay/cascade_selector.rs:545-562 | three reported failures raise the alarm wherever the heartbeat task stands |
| SelectorRace.UnansweredPing | agent-rust/src/relay/cascade_selector.rs:581-625 | so does one ping that the upstream, as only candidate, does not answer |
| SelectorRace.EmergencyCutsIn | agent-rust/src/relay/cascade_selector.rs:276-284 | from every state with an approved switch pending and an alarm raised, the emergency switch can be made first; the voluntary one still follows, within its cooldown |
| SelectorRace.SpacingCanFail | agent-rust/src/main.rs:185-199 | a run of heartbeat task and ping loop, under the default policy, in which a voluntary switch is made at the very time of an emergency switch |
| SelectorRace.ReadingOvertaken | agent-rust/src/relay/cascade_selector.rs:499-500 | two switches can set their times in the wrong order, so that the time of the last switch goes back |
| NodeStore.MemoryStore.RegisterNode | internal/controller/store.go:40-93 | a known node keeps flags, weight and (unless offline) status; a new one starts pending with weight 0.5 |
| NodeStore.MemoryStore.UpdateHeartbeat | internal/controller/store.go:95-116 | takes over every reported figure of a known node and sets it online, and refuses an unknown one |
| NodeStore.MemoryStore.RemoveStaleNodes | internal/controller/store.go:154-168 | removes exactly the nodes silent for longer than the timeout and counts them |
| NodeStore.MemoryStore.RemoveNode | internal/controller/store.go:321-330 | removes one node and tells whether it was there |
| NodeStore.MemoryStore.SetNodeStatus | internal/controller/store.go:332-341 | changes one status and nothing else |
| NodeStore.HealthFromNumbers | internal/common/utils.go:24-41 | a node is healthy if and only if it is online or busy, was heard of in the last 15 s, uses at most 70% of its bandwidth and loses at most 5% |
| NodeStore.HealthAfterHeartbeat | internal/controller/store.go:95-116 | whatever state it was in, a node that reports is healthy for 15 s exactly if what it reported allows it |
| NodeStore.HealthAfterRegistration | internal/controller/store.go:44-90 | a registration makes an offline node healthy again on what it last reported, but no new, pending or cooling one |
| Mesh.MeshNodeScore | internal/controller/mesh.go:290-351 | the hint never exceeds 1 before scaling |
| Mesh.RatingPrefers | internal/controller/mesh.go:290-351 | the cap at 1 never bites, and being in the region, having the provider, IPv6, less loss by class, no children and less used bandwidth each raise the hint |
| Mesh.HintRange | internal/controller/mesh.go:193-351 | the hint of every healthy offered node lies between 32.2 and 95.5 |
| Mesh.OfferedExactly | internal/controller/mesh.go:126-143 | a node is offered if and only if it is another one on tier 1, to one on tier 2, uses at most 70% of its bandwidth and has 4 Mbps of its cascade share left |
| Mesh.OfferedAs | internal/controller/mesh.go:193-243 | with which address, rating and limit: as many children as the bandwidth left allows at 4 Mbps each |
| Mesh.BuildMeshMapResponse | internal/controller/mesh.go:112-173 | no answer for an unknown node; otherwise tier, the head of a sorting of the lower-tier offers, policy and advice |
| Mesh.TopThreeIsBest | internal/controller/mesh.go:145-153 | the list is sorted, comes from the offers, and nothing left out beats anything kept |
| Mesh.CandidatesAreLower | internal/controller/mesh.go:126-143 | every candidate is another healthy cascade node of a strictly lower tier with a hint of at most 100 |
| Mesh.AdviceIsExact | internal/controller/mesh.go:355-384 | both reasons for advice, each with its exact condition on the registry, and the candidate preferred |
| Mesh.OfflineExactly | agent-rust/src/relay/cascade_selector.rs:262-273 | the agent is told to leave at once if and only if the upstream it reported is not registered |
| MeshProtocol.PickedIsEdge | agent-rust/src/relay/cascade_selector.rs:291-375 | whatever a selection reads of guard and probes, it chooses another node, of the lower tier, from a response built by the filter |
| MeshProtocol.StepKeepsInv | internal/controller/mesh.go:112-173 | process starts, registrations and responses delayed, repeated and reordered, removals, and every step of every task of an agent keep every upstream link between a node entered on tier 2 and another entered on tier 1; a known node registering with other flags is no exception |
| MeshProtocol.UpstreamWasEntered | internal/controller/store.go:44-90 | in every run, with no condition, an agent that pulls from another was entered into the registry on tier 2, the other on tier 1 |
| MeshProtocol.CycleTakesTwoMoves | internal/controller/mesh.go:175-190 | in every run, a cycle passes two different nodes that were each entered on both tiers |
| MeshProtocol.NoCycles | internal/controller/mesh.go:175-190 | while at most one node was entered on both tiers, following upstreams never repeats a node and passes at most three, the middle one being that node |
| MeshProtocol.OriginReached | internal/controller/mesh.go:175-190 | from every node three nodes lead to the origin, and if no node was entered on both tiers, as many as the node's own tier |
| MeshAdvice.RegistryIsHistory | internal/controller/store.go:40-116 | in every run a registered node has the figures of its last heartbeat since it was entered, the address of its last registration, the flags of the registration that entered it and the time of the last contact |
| MeshAdvice.SilentAreRemoved | internal/controller/store.go:154-168 | a cleanup leaves exactly the nodes heard of within the timeout |
| MeshAdvice.OfflineOfRun | internal/controller/mesh.go:355-371 | in every run a response tells its agent to leave at once if and only if the last heartbeat before it named an upstream that was not registered |
| MeshAdvice.ForcedHasCause | agent-rust/src/relay/cascade_selector.rs:262-273 | in every run, an agent whose heartbeat task forces a switch was answered at a moment when its last heartbeat named an unregistered upstream |
| MeshCycles.AnyTwoCanClose | agent-rust/src/main.rs:944-961 | for any two nodes there is a run of steps the processes and the controller take (restart with other flags, removal, in either adoption one report that goes unanswered) in which only these two register and end up pulling from each other |
| MeshCycles.CyclesExactly | internal/controller/store.go:44-90 | if only certain nodes may be entered on both tiers, some run closes a cycle if and only if there are two of them |
| MeshLimits.MachineIsHistory | agent-rust/src/relay/cascade_selector.rs:252-287 | in every run of the whole system the state and the tasks of each agent are those of its selector's run since its process started |
| MeshLimits.ResponsesAreBounded | internal/controller/mesh.go:224-243 | the controller's responses satisfy what the score ratchet assumes, if no node reports a negative child count |
| MeshLimits.SystemWindowLimit | internal/controller/mesh.go:88-98 | no agent, in any run of the whole system, makes more than 3 voluntary switches within 300 s |
| MeshLimits.SystemFiniteFlapping | agent-rust/src/relay/cascade_selector.rs:460-474 | nor more than 41 between two resets of its path, plus those needed to climb out of a negative score |
| Outliers.Detector.ReportNodeFail | internal/controller/scheduler.go:390-432 | the record's count, time and, from the fifth failure on, a longer ejection; the node's halved weight, fail count and time; nothing else changes |
| Outliers.Detector.ReportNodeSuccess | internal/controller/scheduler.go:436-459 | the failure run ends, an ended ejection is cleared with its count; a node below full weight regains 0.1 and its own fail count is reset |
| Outliers.Detector.RecoverOutliers | internal/controller/scheduler.go:463-476 | clears every ended ejection and only those, keeping their counts |
| Outliers.Detector.RestNodes | internal/controller/server.go:1142-1149 | every healthy node regains 0.05 of weight, up to 1 |
| Outliers.Detector.IsEjected | internal/controller/scheduler.go:374-386 | true exactly within an ejection, except at its last instant, where the filter still counts the node as ejected |
| Outliers.DurationEscalates | internal/controller/scheduler.go:417-423 | the k-th ejection lasts min(30k, 300) s if and only if the 64-bit product does not wrap to something short; never longer than 300 s |
| Outliers.EscalationOverflows | internal/controller/scheduler.go:419-423 | at the first wrapping count the ejection is over before it begins |
| Outliers.CountsOfRun | internal/controller/scheduler.go:390-476 | the stored counts are exactly the ejections since the last resetting success and the failures since the last success or clearing cleanup, and a failure ejects if and only if there are five of the latter |
| Outliers.EjectionEscalates | internal/controller/scheduler.go:415-423 | the k-th ejection since the last reset ends min(30k, 300) s later and took five failures with neither a success nor a clearing cleanup among them |
| Outliers.EjectionsEnd | internal/controller/scheduler.go:417-423 | in every run every ejection ends no later than 300 s after the last reported failure |
| Outliers.EjectionLasts | internal/controller/scheduler.go:343-371 | whatever is reported meanwhile, of this node or others, an ejected node stays ejected to the end of its term, as long as its own count stays in range |
| Outliers.WrappedCountReleases | internal/controller/scheduler.go:417-423 | the range is needed: the failure that wraps the count ends the ejection at once |
| Outliers.FiveFailuresEject | internal/controller/scheduler.go:400-416 | five failures with neither a success nor a cleanup among them eject the node |
| Outliers.ResetRule | internal/controller/scheduler.go:440-448 | a success clears the count if and only if an ended ejection is still on record |
| Outliers.CountSurvivesRecovery | internal/controller/scheduler.go:463-476 | once a cleanup cleared it, no number of successes lowers the count before another ejection |
| Outliers.EscalationOutlivesRecovery | internal/controller/scheduler.go:440-476 | a recovered, since then successful node is ejected for 60 s, not 30 |
| Outliers.StepKeepsWeights | internal/controller/scheduler.go:406-410 | every report and cleanup keeps effective weights in [0.1, 1] |
| Outliers.WeightStep | internal/controller/scheduler.go:400-459 | in every run what each step does to each weight: a failure halves it down to 0.1, a success gives 0.1 back, a cleanup 0.05 to healthy nodes, nothing else changes it |
| Outliers.RunKeepsWeights | internal/controller/store.go:88-88 | hence in every run, from the start value 0.5 on |
| Outliers.FailuresHalve | internal/controller/scheduler.go:406-410 | k failures, with no success and no cleanup among them and whatever happens to others, leave the weight over 2^k, or 0.1 |
| Outliers.FourFailuresBottom | internal/controller/scheduler.go:406-410 | so four leave exactly 0.1 |
| Outliers.SuccessesRestore | internal/controller/scheduler.go:450-458 | without failures the weight is the old one and 0.1 for each success and 0.05 for each cleanup that found the node healthy, up to 1 |
| Outliers.OwnCountOfRun | internal/controller/scheduler.go:400-459 | after a failure a node shows the failures of its record; a success clears them only below full weight |
| P2c.PickOne | internal/controller/scheduler.go:303-324 | one draw picks the place `PickIndex` names, and in exact arithmetic never reaches the rounding fallback |
| P2c.PickOwnsItsStretch | internal/controller/scheduler.go:304-315 | a draw r picks place i if and only if r lies above the total before i and not above the total with it |
| P2c.DrawIsProportional | internal/controller/scheduler.go:303-324 | a draw d from [0, 1) falls on the place whose stretch of the total score holds d times the total |
| P2c.PickTwoWeighted | internal/controller/scheduler.go:290-334 | the two picks, the second among what the first leaves and over the reduced total |
| P2c.PairShape | internal/controller/scheduler.go:290-334 | the picks are distinct, unused, of positive score, and as many as two or what is left |
| P2c.PairIsDrawn | internal/controller/scheduler.go:290-334 | the first draw falls on the open places, the second on those without the first |
| P2c.P2cSelect | internal/controller/scheduler.go:237-287 | the rounds compute `Selection`; the loop terminates for every sequence of draws |
| P2c.PicksShape | internal/controller/scheduler.go:246-287 | the chosen places are distinct, of positive score, and exactly min(n, number of positive ones) |
| P2c.PicksAreWinners | internal/controller/scheduler.go:246-287 | in every round one of the two drawn is taken, and the other has no greater weight, nor a higher score at equal weight |
| P2c.WorstNeverPicked | internal/controller/scheduler.go:266-275 | while more than n have positive score, one that every other outweighs, or matches in weight and outscores, is never chosen, however the draws fall |
| Dispatch.FilterOutliers | internal/controller/scheduler.go:339-371 | the loop keeps exactly the nodes at the kept places |
| Dispatch.FilterShape | internal/controller/scheduler.go:345-368 | kept in order; left out are exactly the first 30% of the list that are in an ejection |
| Dispatch.SomethingIsAvailable | internal/controller/scheduler.go:94-101 | at least 70% of the nodes stay, so the fallback for an emptied list is never taken |
| Dispatch.ScoreNodes | internal/controller/scheduler.go:202-221 | each node is scored once, weight 0.1 standing for none, by falling score |
| Dispatch.SelectionShape | internal/controller/scheduler.go:237-287 | what is selected from the scored nodes, however equal scores are sorted: distinct, from the list, of exact number, by falling base times weight if all are taken, and else without the one of least weight or, at equal weight, of least base score |
| Dispatch.DispatchWithSticky | internal/controller/scheduler.go:158-195 | the sticky node first, then up to two other available nodes, priorities in order |
| Dispatch.Dispatch | internal/controller/scheduler.go:76-155 | fails exactly when nothing is healthy or, without a usable sticky node, more than three are available and none has a positive score; otherwise 1 to 3 distinct nodes with priority equal to index, and the sticky binding dropped and set as coded |
| Latency.RulesAreInverse | internal/common/types.go:30-41 | the downgrade and upgrade tables undo each other |
| Latency.ModesAreALadder | internal/common/types.go:30-62 | a downgrade buys more buffer and an upgrade gives some back, and each is refused only at its end of the scale |
| Latency.ModeOfRun | internal/controller/latency_controller.go:67-174 | the mode of a session that was never overridden is what its downgrades less its upgrades since its entry was last deleted lead to |
| Latency.LatencyController.Downgrade | internal/controller/latency_controller.go:121-128 | the rule loop computes the next lower mode |
| Latency.LatencyController.Upgrade | internal/controller/latency_controller.go:131-138 | the rule loop computes the next higher mode |
| Latency.LatencyController.ProcessQualityReport | internal/controller/latency_controller.go:67-118 | the new entry, whether it was a downgrade, and the mode answered |
| Latency.LatencyController.CheckAndAdjust | internal/controller/latency_controller.go:141-174 | the two passes over the map upgrade and then delete exactly the entries the rule names |
| Latency.LatencyController.SetOverride | internal/controller/latency_controller.go:177-189 | sets mode and override, keeping the timers of a known session |
| Latency.LatencyController.GetSessionMode | internal/controller/latency_controller.go:192-200 | the stored mode, or the lowest-latency one for an unknown session |
| Latency.SessionsAreIndependent | internal/controller/latency_controller.go:141-174 | sessions do not affect each other, and losing an entry is starting over |
| Latency.TimersOfRun | internal/controller/latency_controller.go:86-114 | in every run at most one timer runs; the stall timer dates an unbroken run of stalling reports without a downgrade, the stable timer is no older than the last stalling report |
| Latency.DowngradeRule | internal/controller/latency_controller.go:93-107 | a downgrade ends 30 s or more of reports that all stalled and none of which downgraded |
| Latency.DowngradeIff | internal/controller/latency_controller.go:86-108 | exact for every session: a stalling report downgrades if and only if no override is in force, there is a mode to go down to, and 30 s of unbroken stalling lie behind it |
| Latency.DowngradesAreSpaced | internal/controller/latency_controller.go:93-107 | two downgrades of a session are at least 30 s apart, even across deletions |
| Latency.UpgradeIff | internal/controller/latency_controller.go:145-162 | a check upgrades if and only if no override is in force, there is a mode to go up to, and 120 s of smooth reports, without stall, upgrade or deletion, lie behind it |
| Latency.UpgradeRule | internal/controller/latency_controller.go:151-162 | an upgrade comes at least 120 s after the last stalling report of the session and after its last upgrade |
| Latency.ModeSurvivesCheck | internal/controller/latency_controller.go:145-173 | exactly when a check, after any run, leaves the mode of a session as it is |
| Latency.CheckForgetsDowngrade | internal/controller/latency_controller.go:103-105 | a check right after a downgrade deletes the session, which is then in the lowest-latency mode again |
| Latency.OverrideSurvivesCheck | internal/controller/latency_controller.go:166-173 | an override survives a check, after any run, exactly when one of the session's timers runs (and, if the stable one, not for over an hour) |
| Latency.CheckForgetsOverride | internal/controller/latency_controller.go:181-184 | an override of a session that has not reported lasts until the next check |
| Backoff.TokenBucket.Consume | agent-rust/src/relay/backoff.rs:30-52 | refill, spend or zero, and the jittered wait, or the panic at rate zero |
| Backoff.TokenBucket.Refill | agent-rust/src/relay/backoff.rs:65-70 | adds what was earned, up to the cap |
| Backoff.OneCall | agent-rust/src/relay/backoff.rs:30-52 | one call admits at most the tokens, the time passed and 1/0.85 of its wait at the rate |
| Backoff.Ledger | agent-rust/src/relay/backoff.rs:30-70 | over a run: admitted plus left over is paid for by the initial tokens, the time passed and a second time by the waits |
| Backoff.AmortisedBound | agent-rust/src/relay/backoff.rs:18-70 | a caller that sleeps its waits gets at most 2R + R * T * (1 + 1/0.85) through, for every jitter |
| Backoff.CoveredNeverSleeps | agent-rust/src/relay/backoff.rs:30-52 | a patient caller never sleeps if and only if every request finds enough tokens |
| Backoff.PlainBoundHolds | agent-rust/src/relay/backoff.rs:30-70 | for such a caller the plain bound holds: the tokens at the start and R per second |
| Backoff.GreedyIsPatient | agent-rust/src/relay/backoff.rs:30-70 | at every rate and for every fixed draw, a caller that asks again after each wait finds just what the wait earned and is short of the same share |
| Backoff.LedgerIsTight | agent-rust/src/relay/backoff.rs:38-50 | with the shortest waits the ledger's bound is attained, at every rate and for any number of calls |
| Backoff.PlainBoundFails | agent-rust/src/relay/backoff.rs:38-50 | otherwise the bound 2R + R * T fails at every rate and for every fixed draw, by more than any given excess |
| Backoff.ExponentialBackoff.Next | agent-rust/src/relay/backoff.rs:113-120 | the jittered, capped, doubled delay, counting the attempt |
| Backoff.DelayDoubles | agent-rust/src/relay/backoff.rs:113-120 | before jitter, attempt k waits the initial delay times 2^k, up to the cap |
| Backoff.WaitsIncrease | agent-rust/src/relay/backoff.rs:112-120 | no wait exceeds 1.25 times the cap, and each is longer than the one before, whatever is drawn, if and only if the delay grows by more than two thirds |

## Left out

- MeshProtocol.NoCycles: speaks of selected upstreams, not of statically configured ones or of relays already created.
- MeshProtocol.StepKeepsInv: a response may also reach a later process of the agent it was sent to, and the list of healthy nodes it is built from may lack some; both only add runs.
- SelectorRuns.WindowLimit: assumes one cooldown and one limit in all responses; MeshLimits.SystemWindowLimit has the controller's constants.
- SelectorRuns.SwitchSpacing: likewise, as are ApprovalIsLimited, CoolingIsExact and OrderedSpacing; the clock does not run backwards.
- SelectorTasks.Picked: a selection that other tasks interrupt may end in any candidate that is allowed and has a URL, with any round-trip time or none; this only adds runs.
- Reporters of upstream failures are any number of tasks, though nothing in the repository calls the reporting methods yet.
- SelectorRuns.FiniteFlapping: assumes hints of at most 100, non-negative child counts and the threshold of 15%; MeshLimits.SystemFiniteFlapping derives all but the child counts, which agents report as 0.
- Outliers.EjectionLasts: while the node's own ejection count is at most 307,445,734, before the 64-bit duration wraps.
- Backoff.AmortisedBound: at a constant rate; `set_rate` is not modelled, nor is rate zero beyond the panic in WaitFor.
- Backpressure.SendLoop: a run up to the first failed write, which ends the connection.
- Dispatch.SortByScore: fixes one order among equal scores where the library sort is free; callers use only that it is a sorting.
- Mesh.BuildMeshMapResponse: likewise for equal hints; the requirement IsResponse allows every order.
- Each method reads the clock once, where the code may read it several times within one call; the steps of SelectorTasks read it where the code does. The clock does not run backwards.
- HTTP, WebSocket and TCP serving, the tokio runtime, logging, metrics and configuration. The broadcast channel is an append-only log with per-receiver cursors. A step of a run is what one task does under one lock; the fairness of the locks is not modelled.
- The `origin_ts` stamp of a tag, the tag counter and the client counters of a relay.
- A panic of `11 + data_size` or of a counter on overflow in debug builds; sums of sizes wrap as in release builds, and the u32 and u64 counters of the cache, the drop tracker and the backoff are unbounded.
- Rounding and NaN of floating-point scores, weights and token counts.
- `light_pressure_threshold`, `is_severe_pressure`, `drop_rate`, `hit_count`, `detect_loop_in_path` and other members nothing in the modelled paths reads.
- Display-only fields: the reason and time of a cascade path, probe interval and time-to-live in the mesh policy, the mesh epoch, the origin fallback URL.
- Building URLs from addresses and ports; they are given fields of a node.
- How the registry persists nodes, counts complaints and cools nodes down; the list of healthy nodes a caller is handed may be any selection of healthy registered nodes in any order.
- The base score of a node (latency, load and quality curves, region bonus) is an arbitrary function in Dispatch; the curves jump at their boundaries.
- The sticky table's own expiry; Dispatch takes its answer as given and says when the binding is dropped and set.
- The log line that takes the first eight characters of a session id; ids are 36-character UUIDs.
- `weightedSelect`, the consistent-hash ring, `ReadFrame` and `WriteFrame`, JSON payloads, the measuring of round-trip times, cryptography, tokens, streams, sessions and the web pages.
