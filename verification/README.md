# Verified models of encypher-c2pa

This project models the parts of encypher-c2pa whose correctness spans many steps, and proves what they promise:

- **E-RTMP wire decoding** (`Rtmp*`): interleaved, compressed RTMP chunk streams become messages, messages become
  verifier events, under byte, event and stream limits. A chunking sender is written independently and decoding is
  proved to undo it.
- **E-RTMP verification** (`Ertmp*`): the event-driven state machine that authenticates segments of live media, with
  invariants over all event lists.
- **CBOR** (`Cbor*`): encoding under three profiles, the repository's own bounded decoder, and the canonical form.
- **Soft-binding resolution** (`Resolver*`): a request/answer protocol against arbitrary servers.
- **Online evidence** (`Online*`): one evidence cache and one budget per verification.
- **Trust windows** (`Trust*`): merging and intersecting validity windows of trust anchors.

Each component has three layers. Specification functions say what each operation does, branch by branch and error by
error. Lemmas prove the properties of those functions over all inputs, runs or reachable states. Classes and methods,
written in place with loops where the program is, are proved to compute exactly those functions, so every property of
the functions is a property of the methods.

For each component the exactness theorems say what is accepted, and what comes of it, without naming the functions: in terms
of octets laid out by independent writers (`RtmpForms`, `RtmpHeads`, `CborForms`), of the event list (`ErtmpFailures`,
`ErtmpReports`, `ErtmpAttempts`, `ErtmpFatal`), of the answers received (`ResolverAddresses`), of the visits made
(`OnlineTrace`) and of the sources' own fields (`TrustWindows`).

The outside world enters as function-valued parameters that may answer anything: hashing, COSE verification, manifest
parsing and validation, AMF3 pairs, allocation sizes, URL and JSON handling, HTTP fetches, consent, PEM and instants.

## Findings

- `canonical_sort` collects entries into an ordered map keyed by the encoded key, so entries whose keys encode alike
  collapse into the last one (`CborCanonical.DuplicateKeysLastWins`, and `CborLossless.RetainedExactly` for every map).
  `CborLossless.CanonicalKeepsExactly` says exactly when nothing is lost: if and only if no map at any depth has two equal
  keys, every integer has 64 bits and every float is finite. These are the values the normal form theorem is about.
- Integers beyond 64 bits are narrowed before they are written: 2^64 comes back as 0 (`CborDecoded.WideIntegerNarrowed`).
  `CborRoundTrip.RoundTripExact` gives the exact condition under which a value survives the unsorted profiles: in range, and
  within the decoder's depth and node limits; `CborLossless.CanonicalRoundTrip` gives it for the sorted one. Decoded values
  are always in range and within the limits (`CborDecoded.DecodedBounded`), so only values built otherwise are affected.
- The verdict's clause about manifest reports never decides: a report is stored only after it was found valid
  (`ErtmpVerdict.VerdictMeaning`).
- Five of the errors an attempt to close a segment may report are never reported in any run
  (`ErtmpReachable.DeadErrorsNeverReported`).

A remark on trust windows: a source window replaces every bundled copy of its certificate, so the merging function alone
would widen acceptance of a bundled certificate that had a window of its own. `TrustWindows.WidensExactly` says exactly when,
and `TrustWindows.BoundedCopyWidens` gives such an argument. The program never passes one: every bundled list is parsed
without bounds (crates/encypher-c2pa/src/default_trust.rs:19-104), so `TrustWindows.NeverWidens` holds of it as it stands.

## Model

| member | source | states |
|---|---|---|
| RtmpRoundTrip.DecodeUndoesChunking | crates/encypher-c2pa/src/ertmp_wire.rs:571-789 | From any related sender and receiver, for every schedule of starts in formats 0 to 3 and type-3 continuations, the messages handed on are exactly the retained ones the sender completed, header and payload, in completion order, up to and including the first that is refused; decoding fails with that refusal, or in mid-message exactly when the sender ends there, and otherwise yields what those messages mean |
| RtmpRoundTrip.ConnectionRoundTrip | crates/encypher-c2pa/src/ertmp_wire.rs:1834-1882 | The same from a fresh connection with any initial chunk size of at least one: what is handed on is a prefix of the completed messages, and all of them when the wire is accepted |
| RtmpRoundTrip.HeardIsPrefix | crates/encypher-c2pa/src/ertmp_wire.rs:777-781 | A prefix of the messages, whole unless one is refused and then ending with it |
| RtmpRoundTrip.ChunkMirrors | crates/encypher-c2pa/src/ertmp_wire.rs:571-789 | One chunk keeps sender and receiver in step: headers, received prefixes, chunk size, and the completed message with its payload, kind, message stream and timestamp |
| RtmpRoundTrip.EffectMirrors | crates/encypher-c2pa/src/ertmp_wire.rs:822-854 | A well-formed Set Chunk Size or Abort changes both sides alike |
| RtmpRoundTrip.HeadReads | crates/encypher-c2pa/src/ertmp_wire.rs:899-997 | The head of a chunk in any format, with or without extended timestamp, is read back as the header the sender announced |
| RtmpRoundTrip.BasicReads | crates/encypher-c2pa/src/ertmp_wire.rs:899-922 | One-, two- and three-octet basic headers are read back for every format and chunk stream id |
| RtmpRoundTrip.StartReads | crates/encypher-c2pa/src/ertmp_wire.rs:924-997 | Every message start, compressed against the previous header or not, is read back with its absolute timestamp |
| RtmpRoundTrip.ContinueReads | crates/encypher-c2pa/src/ertmp_wire.rs:584-620 | A continuation repeats the header and its extended timestamp |
| RtmpSender.NextInv | crates/encypher-c2pa/src/ertmp_wire.rs:1834-1882 | The sender keeps one announced, unfinished message per chunk stream within the receiver's limits |
| RtmpSender.CompletedStarted | crates/encypher-c2pa/src/ertmp_wire.rs:1851-1882 | Every completed message has the chunk stream, kind, message stream, timestamp and payload of a message the schedule started |
| RtmpBuffers.DecodeBuffers | crates/encypher-c2pa/src/ertmp_wire.rs:700-789 | Over any octets, accepted or not: at every head of the decoding loop the byte account equals the sum of the capacities in flight and is within its limit, every retained payload in flight is a strict prefix, no underflow is ever reported, and an accepted wire ends at the last head with an empty account |
| RtmpBuffers.ConnectionBuffers | crates/encypher-c2pa/src/ertmp_wire.rs:571-789 | The same from a fresh decoder |
| RtmpBuffers.ChunkBuffers | crates/encypher-c2pa/src/ertmp_wire.rs:700-775 | Every chunk keeps the account and leaves each retained payload a strict prefix of its message; the underflow on completion is unreachable |
| RtmpBuffers.ApplyBuffers | crates/encypher-c2pa/src/ertmp_wire.rs:834-854 | Abort gives back exactly what the dropped message held; its underflow is unreachable |
| RtmpBuffers.ReserveBuffers | crates/encypher-c2pa/src/ertmp_wire.rs:714-748 | Growing a buffer makes room for the chunk, at least doubles short of the message's length, and charges exactly the growth |
| RtmpTimestamps.TimestampLaw | crates/encypher-c2pa/src/ertmp_wire.rs:584-639 | Over any octets: every message handed on is timestamped with the latest type-0 value of its chunk stream plus the deltas of all message starts since, modulo 2^32, aborted starts counted |
| RtmpTimestamps.ChunkClock | crates/encypher-c2pa/src/ertmp_wire.rs:924-997 | Every accepted chunk keeps the law: type 0 sets the clock, other starts advance it by the last carried value, continuations leave it |
| RtmpTimestamps.DeliveredMeaning | crates/encypher-c2pa/src/ertmp_wire.rs:571-789 | The events of an accepted wire are those of the delivered messages interpreted in order |
| RtmpTimestamps.DeliveriesHandedOn | crates/encypher-c2pa/src/ertmp_wire.rs:571-789 | The timestamped deliveries are the messages handed on, one for one |
| RtmpTimestamps.ConnectionTimestamps | crates/encypher-c2pa/src/ertmp_wire.rs:584-639 | All of these together from the start of a connection |
| RtmpHeads.HeadExact | crates/encypher-c2pa/src/ertmp_wire.rs:899-997 | A chunk head is read as a given one if and only if its octets are that head laid out in some way: a basic header of one to three octets, the fields of its format, an extended timestamp where announced, repeated exactly in format 3 |
| RtmpStanding.DecodeStands | crates/encypher-c2pa/src/ertmp_wire.rs:584-698 | Over any octets, at every loop head: chunk streams within their number and range, each with a listed message type, an acceptable length and the message its last header describes, chunk size within its limit. Every message handed on is whole and of a kept type, every one but a refused last is admissible, and an accepted wire ends with nothing in flight |
| RtmpStanding.ConnectionStands | crates/encypher-c2pa/src/ertmp_wire.rs:571-789 | The same from the start of a connection |
| RtmpStanding.KindsListed | crates/encypher-c2pa/src/ertmp_wire.rs:641-683 | Which message types are defined and which are kept, by number |
| RtmpStanding.AdmissibleExact | crates/encypher-c2pa/src/ertmp_wire.rs:791-867 | Where each message type may travel and what each control message must look like, both directions |
| RtmpStanding.InterpretExact | crates/encypher-c2pa/src/ertmp_wire.rs:791-896 | A message is interpreted exactly if it is admissible and, for audio and video, its payload is a written form that says something, whose tracks can be bound and whose items fit; it then appends just those items with the message's own timestamp and streams and binds just those tracks. An accepted Aggregate is a sequence of written tags, and no other message says anything |
| RtmpAggregate.AggregateMeaning | crates/encypher-c2pa/src/ertmp_wire.rs:999-1061 | For every list of tags an Aggregate yields the same events, contexts, bindings and account, or the same error, as its tags interpreted as messages on its streams at outer + (tag - first) mod 2^32; on a reserved stream it is refused |
| RtmpAggregate.AggregateOnWire | crates/encypher-c2pa/src/ertmp_wire.rs:869-892 | Two wires that differ only in sending the Aggregate or its tags decode alike, script tags being dropped by the chunk layer; the other messages need to agree only in what interpreting reads, however their headers are compressed |
| RtmpAggregate.AllAlikeMeanSame | crates/encypher-c2pa/src/ertmp_wire.rs:791-896 | Interpreting reads chunk stream, kind, message stream, timestamp and payload only |
| RtmpAggregate.TagReads | crates/encypher-c2pa/src/ertmp_wire.rs:1009-1034 | Tag type, size, timestamp, body and trailing size are read back as written |
| RtmpStanding.AggregateIsTags | crates/encypher-c2pa/src/ertmp_wire.rs:999-1061 | Whatever is accepted as an Aggregate is a sequence of written tags, the converse of AggregateMeaning |
| RtmpEvents.PushOk | crates/encypher-c2pa/src/ertmp_wire.rs:366-471 | Appending keeps events and contexts paired, the account equal to the sum over events, and both limits |
| RtmpItems.PushExact | crates/encypher-c2pa/src/ertmp_wire.rs:366-470 | An event is appended exactly if there is room under both event limits and the byte limit, charging what it keeps and 16 octets |
| RtmpEvents.AssociateBinds | crates/encypher-c2pa/src/ertmp_wire.rs:519-550 | A track is bound to its message's nonzero stream and no existing binding changes |
| RtmpItems.AssociateExact | crates/encypher-c2pa/src/ertmp_wire.rs:519-550 | A track can be bound exactly if it is free or bound to this message stream and that is not the control stream; then exactly it is bound |
| RtmpEvents.PacketSound | crates/encypher-c2pa/src/ertmp_wire.rs:1355-1428 | The events of a packet belong to its chunk stream, message stream and bound track; nothing emitted earlier changes |
| RtmpItems.PacketExact | crates/encypher-c2pa/src/ertmp_wire.rs:1339-1428 | A packet on a track succeeds exactly if it says something, the track can be bound and the items fit, and then appends exactly its configuration, frame or metadata pairs with their octets, offset, codec and streams, and nothing for ends and multichannel configurations |
| RtmpEvents.TracksSound | crates/encypher-c2pa/src/ertmp_wire.rs:1201-1299 | The same of all tracks of a Multitrack message |
| RtmpEvents.ParseVideoSound | crates/encypher-c2pa/src/ertmp_wire.rs:1063-1192 | The same of a legacy, enhanced, ModEx or Multitrack video message |
| RtmpEvents.ParseAudioSound | crates/encypher-c2pa/src/ertmp_wire.rs:1430-1557 | The same of an audio message; its octets are fixed by RtmpForms.ParseExact |
| RtmpForms.ParseExact | crates/encypher-c2pa/src/ertmp_wire.rs:1063-1192 | Media messages, exactly: one is accepted if and only if it is some written form (silence, legacy or enhanced command, legacy AVC, AAC or other audio, one packet behind any extensions, Multitrack in three modes) that says something, can be bound and fits; and what it appends and binds is what that form says |
| RtmpForms.MessageDoes | crates/encypher-c2pa/src/ertmp_wire.rs:1430-1557 | Every written form, audio and video, does exactly what it says |
| RtmpForms.AcceptedIsWritten | crates/encypher-c2pa/src/ertmp_wire.rs:1430-1557 | Every accepted audio or video message is a written form |
| RtmpForms.ExtensionsRead | crates/encypher-c2pa/src/ertmp_wire.rs:1113-1146 | Any sequence of ModEx extensions, in either length width, is skipped to the packet type after it |
| RtmpForms.SkippedAreExtensions | crates/encypher-c2pa/src/ertmp_wire.rs:1490-1521 | Whatever is skipped is such a sequence |
| RtmpForms.PartsDo | crates/encypher-c2pa/src/ertmp_wire.rs:1559-1651 | The written parts of a Multitrack message, in any of its modes, do what they say one after another |
| RtmpForms.TracksAreParts | crates/encypher-c2pa/src/ertmp_wire.rs:1201-1299 | Whatever is accepted as tracks of a Multitrack message are written parts of different tracks |
| RtmpForms.CodecNames | crates/encypher-c2pa/src/ertmp_wire.rs:1311-1337 | The codes of all codecs by their registered names |
| RtmpEvents.AggregateSound | crates/encypher-c2pa/src/ertmp_wire.rs:999-1061 | The same of an Aggregate |
| RtmpConnections.InputWellFormed | crates/encypher-c2pa/src/ertmp_wire.rs:269-310 | Every accepted input: events and contexts pair up, a context is absent exactly at reconnects, one fewer of those than connections, octets are counted exactly within both limits, no event is on a control stream, and within a connection each track has one message stream |
| RtmpConnections.DecodeSound | crates/encypher-c2pa/src/ertmp_wire.rs:571-789 | One connection only appends, and binds each of its tracks to one nonzero message stream |
| RtmpTraces.InputExact | crates/encypher-c2pa/src/ertmp_wire.rs:269-310 | Traces are accepted exactly if there is one, each is negotiated and within its limits, together they are within theirs, and they connect one after another: each from where the one before left off, behind a reconnect marker, with its own chunk size and nothing of an earlier connection's chunk streams or bindings |
| RtmpTraces.CheckExact | crates/encypher-c2pa/src/ertmp_wire.rs:279-301 | All traces pass the checks exactly if both sides offered bit 4, AMF3 was negotiated, and chunk size, length and total length are within limits |
| RtmpDigest.OffsetWritesBack | crates/encypher-c2pa/src/ertmp_wire.rs:1789-1796 | The three octets hashed for a signed offset are the octets it was read from |
| RtmpDigest.OffsetReadsBack | crates/encypher-c2pa/src/ertmp.rs:983-998 | Reading the hashed octets gives back every offset in range |
| RtmpDigest.CodedFrameVerbatim | crates/encypher-c2pa/src/ertmp_wire.rs:1339-1354 | One coded-frame packet of one video track, of type CodedFrames or CodedFramesX, appends one frame whose hashed octets are the big-endian timestamp and then the packet's own octets, behind a zero offset where the packet carries none |
| RtmpDigest.EnhancedFrameVerbatim | crates/encypher-c2pa/src/ertmp_wire.rs:1113-1191 | The same of a whole enhanced single-track video message behind any ModEx extensions |
| RtmpDigest.MultitrackFramesVerbatim | crates/encypher-c2pa/src/ertmp_wire.rs:1201-1299 | A Multitrack message of coded frames appends one frame per part, in order, each hashed as its part's own octets; the parts are of different tracks and reach to the end of the message |
| RtmpDigest.MultitrackMessageVerbatim | crates/encypher-c2pa/src/ertmp_wire.rs:1146-1156 | The same of a whole enhanced video message behind any ModEx extensions |
| RtmpDigest.LegacyFrameVerbatim | crates/encypher-c2pa/src/ertmp_wire.rs:1074-1111 | The same of a legacy AVC frame |
| RtmpForms.AacFrameVerbatim | crates/encypher-c2pa/src/ertmp_wire.rs:1441-1468 | A legacy AAC frame appends one frame on audio track 0 at the message's timestamp and offset 0 whose octets are those after format and packet type |
| RtmpForms.OldAudioFrameVerbatim | crates/encypher-c2pa/src/ertmp_wire.rs:1469-1494 | The same of any other legacy format, with the octets after the format and no codec |
| RtmpForms.EnhancedAudioVerbatim | crates/encypher-c2pa/src/ertmp_wire.rs:1496-1557 | The same of an enhanced audio frame behind any ModEx extensions, with the octets after the FourCC and that FourCC |
| RtmpForms.MultitrackAudioVerbatim | crates/encypher-c2pa/src/ertmp_wire.rs:1559-1651 | A Multitrack message of coded audio appends one frame per part, in order, on its track, with its octets and codec |
| RtmpDigest.WireInputInRange | crates/encypher-c2pa/src/ertmp.rs:340-347 | For every accepted wire the verifier finds the connection negotiated, the events within its limit, and never reports an offset out of range |
| RtmpSinks.EventSink.Claim | crates/encypher-c2pa/src/ertmp_wire.rs:366-392 | Refuses at either limit, otherwise charges the event and its context |
| RtmpSinks.EventSink.Append | crates/encypher-c2pa/src/ertmp_wire.rs:394-470 | Appends event and context together or changes nothing but reports which limit is reached |
| RtmpSinks.TrackBindings.Bind | crates/encypher-c2pa/src/ertmp_wire.rs:520-549 | The two slot arrays afterwards are the associated bindings |
| RtmpSinks.PushPairsInto | crates/encypher-c2pa/src/ertmp_wire.rs:1404-1413 | Pushes the metadata pairs in order until one is refused |
| RtmpSinks.EmitVideoInto | crates/encypher-c2pa/src/ertmp_wire.rs:1357-1428 | Emits what the specification of a video packet says, packet type by packet type |
| RtmpSinks.EmitAudioInto | crates/encypher-c2pa/src/ertmp_wire.rs:1692-1741 | The same for audio packets |
| RtmpSinks.PacketInto | crates/encypher-c2pa/src/ertmp_wire.rs:1169-1191 | Splits the body, binds the track, then emits |
| RtmpSinks.SkipExtensions | crates/encypher-c2pa/src/ertmp_wire.rs:1113-1146 | The ModEx loop ends at the packet type and offset the recursive reading gives |
| RtmpSinks.ReadPartAt | crates/encypher-c2pa/src/ertmp_wire.rs:1236-1277 | One Multitrack part, marking its track id in the seen table |
| RtmpSinks.TracksInto | crates/encypher-c2pa/src/ertmp_wire.rs:1234-1299 | The Multitrack loop over a seen table computes the recursive specification over a set of ids |
| RtmpSinks.MultitrackInto | crates/encypher-c2pa/src/ertmp_wire.rs:1559-1651 | Multitrack header, shared codec and parts |
| RtmpSinks.LegacyVideoInto | crates/encypher-c2pa/src/ertmp_wire.rs:1074-1111 | Legacy AVC messages and command frames |
| RtmpSinks.ParseVideoInto | crates/encypher-c2pa/src/ertmp_wire.rs:1063-1192 | A video message leaves bindings and sink as specified, error for error |
| RtmpSinks.LegacyAudioInto | crates/encypher-c2pa/src/ertmp_wire.rs:1441-1494 | Legacy audio messages leave bindings and sink as specified, which RtmpForms.ParseExact and the audio verbatim theorems fix octet for octet |
| RtmpSinks.ParseAudioInto | crates/encypher-c2pa/src/ertmp_wire.rs:1430-1557 | An audio message leaves bindings and sink as specified, error for error, hence exactly as its written form says |
| RtmpSinks.ParseAggregateInto | crates/encypher-c2pa/src/ertmp_wire.rs:999-1061 | The tag loop computes the recursive specification |
| RtmpMachine.RtmpDecoder.constructor | crates/encypher-c2pa/src/ertmp_wire.rs:561-569 | A fresh decoder with unbound tracks |
| RtmpMachine.RtmpDecoder.Enter | crates/encypher-c2pa/src/ertmp_wire.rs:621-698 | Continues or starts the message of a chunk, refusing replaced, overlong and undefined ones and too many streams |
| RtmpMachine.RtmpDecoder.Grow | crates/encypher-c2pa/src/ertmp_wire.rs:714-748 | Capacity and account after a reservation |
| RtmpMachine.RtmpDecoder.Take | crates/encypher-c2pa/src/ertmp_wire.rs:700-775 | Takes a chunk's payload and completes its message |
| RtmpMachine.RtmpDecoder.ReadChunk | crates/encypher-c2pa/src/ertmp_wire.rs:573-775 | One turn of the decoding loop up to the completed message |
| RtmpMachine.RtmpDecoder.Obey | crates/encypher-c2pa/src/ertmp_wire.rs:822-855 | Chunk size and aborted message |
| RtmpMachine.RtmpDecoder.Receive | crates/encypher-c2pa/src/ertmp_wire.rs:791-896 | Placement and control checks, then the media parser or the decoder itself |
| RtmpMachine.RtmpDecoder.Decode | crates/encypher-c2pa/src/ertmp_wire.rs:571-789 | The loop over a whole trace leaves decoder, bindings and sink as specified, error for error, keeping the account at every head |
| RtmpMachine.CheckAll | crates/encypher-c2pa/src/ertmp_wire.rs:279-301 | Negotiation, chunk size and wire limits of all traces before any is decoded |
| RtmpMachine.InputFromConnections | crates/encypher-c2pa/src/ertmp_wire.rs:269-310 | All traces in turn with a reconnect between them |
| ErtmpTheorems.AcceptanceSafety | crates/encypher-c2pa/src/ertmp.rs:515-648 | Every valid segment of every run names the last delivered manifest, delivered since the last reconnect and the last configuration of any track and validated against the very initialization data in force; its frames are all of its track and chunk stream, hash to its digest, and span no reconnect or reconfiguration of the track |
| ErtmpReachable.DeadErrorsNeverReported | crates/encypher-c2pa/src/ertmp.rs:515-684 | In every run, no segment report carries the errors of a missing track state, an undelivered active manifest, one delivered before the configuration, one bound to other data, or a segment nobody tried to close; and a report gives reasons exactly if its segment is invalid |
| ErtmpReachable.AttemptNotDead | crates/encypher-c2pa/src/ertmp.rs:579-611 | At any reachable state an attempt ends in none of these errors, and the active manifest stays stored under its own revision |
| ErtmpTheorems.NoFrameEscapes | crates/encypher-c2pa/src/ertmp.rs:686-728 | If the verdict is valid, the frame lists of a track's accepted segments, concatenated in closure order, are exactly that track's Frame events |
| ErtmpTheorems.FrameInExactlyOneSegment | crates/encypher-c2pa/src/ertmp.rs:332-387 | If the verdict is valid, every frame event lies in exactly one closed segment, all of which are valid |
| ErtmpTheorems.SequenceAndKeyDiscipline | crates/encypher-c2pa/src/ertmp.rs:561-642 | In every run, consecutive valid segments of a track are numbered exactly one apart, across reconnects and invalid segments, and valid segments that share a session key id are of one track |
| ErtmpTheorems.SequenceDiscipline | crates/encypher-c2pa/src/ertmp.rs:650-684 | A valid segment is numbered one above the previous valid segment of its track in any disciplined report list |
| ErtmpInvariant.InvHolds | crates/encypher-c2pa/src/ertmp.rs:309-455 | The state after every prefix of every event list matches the history of that prefix: clock, deliveries, open frames, pending and closed segments, sequence numbers |
| ErtmpInvariant.InvStep | crates/encypher-c2pa/src/ertmp.rs:309-430 | Every event keeps that invariant |
| ErtmpEvidence.CandidateFrames | crates/encypher-c2pa/src/ertmp.rs:515-560 | A candidate that passes the checks describes exactly the open frames of its track in the event list |
| ErtmpEvidence.NeverElsewhere | crates/encypher-c2pa/src/ertmp.rs:589-594 | A manifest that is still active was not bound to other initialization data |
| ErtmpEvidence.KeyAcceptsMeans | crates/encypher-c2pa/src/ertmp.rs:612-642 | A key accepts exactly if it vouches for the message: verified signature, its own key id, the signed payload, its first sequence number and its lifetime, and no other track uses it |
| ErtmpTimeline.ActiveIsLast | crates/encypher-c2pa/src/ertmp.rs:394-402 | The active manifest is the last one delivered, at the configuration count of its delivery, and if it is marked fresh nothing reconnected since |
| ErtmpTimeline.ConfigsSteady | crates/encypher-c2pa/src/ertmp.rs:311-331 | Without a reconnect or a configuration, the configurations in force do not change |
| ErtmpTimeline.LatestConfigInForce | crates/encypher-c2pa/src/ertmp.rs:311-331 | The latest configuration of a track since the last reconnection is the one in force, under its revision |
| ErtmpTimeline.ConfigHasSource | crates/encypher-c2pa/src/ertmp.rs:432-455 | Whatever is in force was configured since the last reconnection and not replaced |
| ErtmpCommute.TracksCommute | crates/encypher-c2pa/src/ertmp.rs:457-513 | Swapping an adjacent frame with a frame or SegmentInfo of another track, anywhere in any event list, keeps the verdict, each track's segment reports and the failures as a multiset |
| ErtmpCommute.AdjacentCommute | crates/encypher-c2pa/src/ertmp.rs:332-387 | The two events lead to similar states in either order, from any state |
| ErtmpCommute.RunSimilar | crates/encypher-c2pa/src/ertmp.rs:309-430 | Similar states stay similar under any further events |
| ErtmpVerdict.VerdictMeaning | crates/encypher-c2pa/src/ertmp.rs:686-728 | The verdict is valid exactly when nothing failed and every closed segment was accepted; every listed manifest was valid and bound; a valid verdict means a negotiated connection and at least one segment. Which events fail is ErtmpFailures.FailuresExact |
| ErtmpVerdict.RunFailures | crates/encypher-c2pa/src/ertmp.rs:305-307 | No event takes a failure back |
| ErtmpFailures.FailuresExact | crates/encypher-c2pa/src/ertmp.rs:309-513 | The failures of every run are exactly, and in order, those the event list calls for: frames without a manifest delivered since the last reconnect and configuration, without a configuration, on another chunk stream or with an offset out of range, manifests on another chunk stream, SegmentInfo that close nothing, segments left open, no segment, no negotiation |
| ErtmpFailures.NoFailureExactly | crates/encypher-c2pa/src/ertmp.rs:686-728 | A run has no failure if and only if both ends negotiated, every event is in order (in particular every frame comes after a manifest delivered since the last reconnect and the last configuration of any track, on its track's configured chunk stream), no frames are left that nobody tried to close, and something was closed |
| ErtmpFailures.OrderExact | crates/encypher-c2pa/src/ertmp.rs:432-455 | Tracks are closed exactly once each, video before audio, by id |
| ErtmpReports.ReportsExact | crates/encypher-c2pa/src/ertmp.rs:650-684 | The segments of every verdict are exactly, and in order, those the event list and the attempts call for: one for each time the attempts on a track are ended by a frame of it, a reconnection or the end of the run, with the first success, or else the reasons of all its attempts in order |
| ErtmpFatal.RunFatalExactly | crates/encypher-c2pa/src/ertmp.rs:181-212 | A run breaks off exactly if some event meets a fatal condition read off the event list: too many tracks, frames or candidates, or an unreadable manifest |
| ErtmpFatal.VerdictExactly | crates/encypher-c2pa/src/ertmp.rs:181-212 | There is a verdict exactly if there are at most 1,000,000 events and none is fatal |
| ErtmpManifests.ManifestsExact | crates/encypher-c2pa/src/ertmp.rs:579-620 | A verdict lists exactly those manifests that some SegmentInfo with frames to close found valid, whether or not a key vouched for it, and that were not delivered again since; each is reported valid and bound to its content |
| ErtmpSegmentFields.SegmentInfoExact | crates/encypher-c2pa/src/ertmp.rs:740-851 | A SegmentInfo is read as a given one if and only if its octets carry exactly its fields, each once and of its type, and nothing else |
| ErtmpSegmentFields.SegmentInfoReadsBack | crates/encypher-c2pa/src/ertmp.rs:740-851 | A segment written as a CBOR map in whatever order inside an envelope is read back |
| ErtmpAttempts.AttemptExact | crates/encypher-c2pa/src/ertmp.rs:515-648 | At a state that agrees with the event list, an attempt to close a segment succeeds if and only if the message carries a segment that describes the open frames and their digest, follows the track's last number, names the manifest in force, which validates against the initialization data in force, and some key of it vouches for the message |
| ErtmpAttempts.EveryAttemptExact | crates/encypher-c2pa/src/ertmp.rs:515-648 | The same at every SegmentInfo of every run that has something to close |
| ErtmpAttempts.FindKeyExact | crates/encypher-c2pa/src/ertmp.rs:612-642 | The key found is the first of the manifest's keys that vouches, and one is found exactly if any does |
| ErtmpAttempts.CheckExact | crates/encypher-c2pa/src/ertmp.rs:515-588 | A candidate passes the checks exactly if the message carries it, it describes the open frames of its track, its number follows the last and its manifest passes |
| ErtmpAttempts.ActiveExact | crates/encypher-c2pa/src/ertmp.rs:565-588 | A segment names the manifest in force exactly if that was the last one delivered, since the last reconnect and the last configuration of any track |
| ErtmpAttempts.BindExact | crates/encypher-c2pa/src/ertmp.rs:589-611 | The manifest in force can be bound exactly if it validates against the initialization data in force, bound before or not |
| ErtmpAttempts.InitializationExact | crates/encypher-c2pa/src/ertmp.rs:974-981 | Initialization data are the payloads of all configured tracks, video by id and then audio by id |
| ErtmpReasons.ReasonTrue | crates/encypher-c2pa/src/ertmp.rs:515-648 | In any state, the reason an attempt fails for is true of the message, the open frames, the configuration and the manifest |
| ErtmpMachine.Verifier.constructor | crates/encypher-c2pa/src/ertmp.rs:285-303 | The starting state |
| ErtmpMachine.Verifier.Event | crates/encypher-c2pa/src/ertmp.rs:309-430 | One event changes the fields exactly as the step function says, fatal errors included |
| ErtmpMachine.Verifier.OnConfig | crates/encypher-c2pa/src/ertmp.rs:311-331 | A codec configuration |
| ErtmpMachine.Verifier.OnFrame | crates/encypher-c2pa/src/ertmp.rs:332-387 | A frame, its failures and its record, as the step function says; its failures are fixed by ErtmpFailures.FailuresExact |
| ErtmpMachine.Verifier.OnManifest | crates/encypher-c2pa/src/ertmp.rs:388-410 | A manifest delivery, replacing an earlier one of the same id |
| ErtmpMachine.Verifier.OnSegmentInfo | crates/encypher-c2pa/src/ertmp.rs:457-513 | A SegmentInfo candidate and the pending segment |
| ErtmpMachine.Verifier.Authenticate | crates/encypher-c2pa/src/ertmp.rs:515-648 | Checks, manifest binding and key search, with what stays bound on failure |
| ErtmpMachine.Verifier.FinalizePending | crates/encypher-c2pa/src/ertmp.rs:650-684 | Closing a pending segment |
| ErtmpMachine.Verifier.Reconnect | crates/encypher-c2pa/src/ertmp.rs:432-455 | Closing every track in order |
| ErtmpMachine.Verifier.Finish | crates/encypher-c2pa/src/ertmp.rs:686-728 | Closing the run and its verdict |
| ErtmpMachine.VerifyInput | crates/encypher-c2pa/src/ertmp.rs:181-212 | The loop over all events computes the verdict of the run, whose failures, segments, manifests and validity the theorems above read off the event list |
| ErtmpMachine.CollectInitialization | crates/encypher-c2pa/src/ertmp.rs:974-981 | Configurations concatenated in track order |
| ErtmpMachine.CollectPreimage | crates/encypher-c2pa/src/ertmp.rs:983-998 | Timestamp, offset and coded octets of each frame in order |
| CborRoundTrip.ItemReadsEncoding | crates/encypher-c2pa/src/c2pa-cbor/encode.rs:31-108 | Under every profile, reading an encoding followed by anything returns the emitted value and stops right after it, exactly if depth and node limits allow |
| CborRoundTrip.DecodeUndoesEncode | crates/encypher-c2pa/src/c2pa-cbor/decode.rs:65-88 | The same of a complete input |
| CborRoundTrip.RoundTripExact | crates/encypher-c2pa/src/c2pa-cbor/encode.rs:110-119 | A value comes back unchanged under the unsorted profiles if and only if its integers are in range and the limits allow it |
| CborRoundTrip.ProfilesAgree | crates/encypher-c2pa/src/c2pa-cbor/encode.rs:56-99 | Definite and indefinite encodings decode to the same value |
| CborRoundTrip.PrefixFree | crates/encypher-c2pa/src/c2pa-cbor/encode.rs:31-108 | No encoding is a proper prefix of another, and equal encodings mean equal emitted values |
| CborRoundTrip.HeadIsShortest | crates/encypher-c2pa/src/c2pa-cbor/encode.rs:121-137 | No shorter head reads as the same argument |
| CborRoundTrip.ArgumentOfHead | crates/encypher-c2pa/src/c2pa-cbor/decode.rs:141-162 | Major type and argument of every written head are read back |
| CborDecoded.DecodedBounded | crates/encypher-c2pa/src/c2pa-cbor/decode.rs:164-318 | Whatever the octets, a decoded value has 64-bit integers, UTF-8 text and eight-octet floats and lies within the depth and node limits |
| CborDecoded.DecodedEncodesAgain | crates/encypher-c2pa/src/c2pa-cbor/decode.rs:65-88 | Encoding a decoded value again and decoding gives it back under the unsorted profiles, and under the canonical one, up to entry order, if and only if no map has two equal keys and every float is finite |
| CborDecoded.WideIntegerNarrowed | crates/encypher-c2pa/src/c2pa-cbor/encode.rs:110-119 | A concrete loss: 2^64 is written and comes back as 0 |
| CborForms.DecodeExact | crates/encypher-c2pa/src/c2pa-cbor/decode.rs:164-318 | The decoder accepts exactly the octets that write some value in some way (heads in any width, strings whole or in pieces, collections counted or up to a break, short floats, undefined) within 64 levels and 2^20 nodes, pieces counted, and reads each as the value it stands for |
| CborForms.FormReads | crates/encypher-c2pa/src/c2pa-cbor/decode.rs:164-318 | Every such writing is read back, anywhere in any octets |
| CborForms.ItemWasWritten | crates/encypher-c2pa/src/c2pa-cbor/decode.rs:164-318 | Whatever is read as an item is such a writing |
| CborForms.PiecesRead | crates/encypher-c2pa/src/c2pa-cbor/decode.rs:212-248 | Strings in pieces are joined in order up to the break |
| CborTidy.EncodeExact | crates/encypher-c2pa/src/c2pa-cbor/encode.rs:31-108 | An encoding is the tidy writing of the value it carries: every head as short as can be, every string whole, collections counted exactly if the profile is not the indefinite one |
| CborCanonical.CanonicalNormalForm | crates/encypher-c2pa/src/c2pa-cbor/encode.rs:66-86 | For values with distinct keys the sorted profile gives equal octets exactly when the values differ only by permuting map entries at any depth |
| CborCanonical.CanonicalOctetsEqual | crates/encypher-c2pa/src/c2pa-cbor/encode.rs:66-86 | Equal canonical octets mean equal emitted values, duplicates allowed |
| CborCanonical.CanonicalStable | crates/encypher-c2pa/src/c2pa-cbor/lib.rs:95-110 | Encoding the emitted value again gives the same octets |
| CborCanonical.DuplicateKeysLastWins | crates/encypher-c2pa/src/c2pa-cbor/lib.rs:95-110 | A concrete loss: two entries with one key collapse into the last |
| CborLossless.CanonicalKeepsExactly | crates/encypher-c2pa/src/c2pa-cbor/encode.rs:66-86 | The canonical profile writes a value and keeps it up to entry order if and only if no map in it, at any depth, has two equal keys, every integer has 64 bits and every float is finite |
| CborLossless.CanonicalRoundTrip | crates/encypher-c2pa/src/c2pa-cbor/decode.rs:65-88 | Decoding canonical octets gives the value back up to entry order if and only if that holds and the value is within the decoder's depth and node limits |
| CborLossless.EmittedHashable | crates/encypher-c2pa/src/c2pa-cbor/lib.rs:95-110 | Whatever the canonical profile writes has distinct keys, 64-bit integers and finite floats |
| CborLossless.RetainedExactly | crates/encypher-c2pa/src/c2pa-cbor/lib.rs:95-110 | Of any map exactly those entries are written whose key no later entry repeats |
| CborOrder.SortKeyOrder | crates/encypher-c2pa/src/c2pa-cbor/lib.rs:95-110 | The order of sort keys is length first, then octet by octet |
| CborOrder.OrderOfIncreasing | crates/encypher-c2pa/src/c2pa-cbor/lib.rs:95-110 | Retained entries are strictly increasing by sort key |
| CborOrder.OrderOfMember | crates/encypher-c2pa/src/c2pa-cbor/lib.rs:95-110 | Exactly the last entry of each key is retained |
| CborWriter.Output.WriteHead | crates/encypher-c2pa/src/c2pa-cbor/encode.rs:121-137 | Appends the head and nothing else |
| CborWriter.Output.EncodeInt | crates/encypher-c2pa/src/c2pa-cbor/encode.rs:110-119 | Appends the narrowed integer |
| CborWriter.Output.EncodeInto | crates/encypher-c2pa/src/c2pa-cbor/encode.rs:31-108 | Appends the encoding of the value, or fails as it does |
| CborWriter.Output.EncodeArray | crates/encypher-c2pa/src/c2pa-cbor/encode.rs:50-64 | Opening, items in order, closing |
| CborWriter.Output.EncodeMap | crates/encypher-c2pa/src/c2pa-cbor/encode.rs:65-99 | Opening, entries in profile order, closing |
| CborWriter.Output.CanonicalSort | crates/encypher-c2pa/src/c2pa-cbor/lib.rs:95-110 | The ordered map built by insertion holds the retained entries in order |
| CborWriter.InsertEntry | crates/encypher-c2pa/src/c2pa-cbor/lib.rs:95-110 | Inserting into the sorted entries or replacing an equal key |
| ResolverProtocol.EveryRequestSafe | crates/encypher-c2pa/src/soft_binding.rs:1084-1102 | For every sequence of answers, every request ever offered has an allowlisted origin and no credentials, carries the asset only as the body of a consented content query under the caller's media type, posts only the query, and accepts only JSON or, for manifests, C2PA |
| ResolverProtocol.RequestBound | crates/encypher-c2pa/src/soft_binding.rs:425-454 | At most 5 + 2 * max_results requests, at most one of them the query, at most one with the asset |
| ResolverProtocol.CompletedRun | crates/encypher-c2pa/src/soft_binding.rs:456-475 | An error-free finished run asked for exactly the planned documents in order, was answered by the very addresses asked, holds what those answers were read as, and recovered the returned matches one to one in order, each with the store its server answered, its own verification report, and the receipt answered for it if receipts were wanted |
| ResolverProtocol.ResolutionMeans | crates/encypher-c2pa/src/soft_binding.rs:959-986 | Over any transport, a resolution that succeeds asked at most 5 + 2 * max_results requests, exactly the planned ones, and holds one recovered manifest per returned match, in order, from the transport's own answers |
| ResolverProtocol.ConductedRun | crates/encypher-c2pa/src/soft_binding.rs:959-986 | A conducted session that succeeds is an error-free run to its end |
| ResolverProtocol.RunProgress | crates/encypher-c2pa/src/soft_binding.rs:477-766 | Where every error-free run stands after every answer |
| ResolverProtocol.OriginsExact | crates/encypher-c2pa/src/soft_binding.rs:1056-1082 | The allowlist holds exactly the configured origins, each once |
| ResolverProtocol.CreateMakes | crates/encypher-c2pa/src/soft_binding.rs:341-410 | A created session had valid options and was allowed online, has the consent its route needs, upload or reference, and asks its allowlisted root first |
| ResolverAddresses.EveryRequestAddressed | crates/encypher-c2pa/src/soft_binding.rs:477-760 | For every sequence of answers and any way of reading query strings back: every request ever offered goes where root, first answer and its own match say, the query to the joined route of its kind, its query string reading as exactly the query's own fields and then maxResults, its method and body those of the query; manifests and receipts at their repository under the match's id |
| ResolverAddresses.AnswerExact | crates/encypher-c2pa/src/soft_binding.rs:425-766 | At every point of every run the next answer is taken if and only if it comes from the address asked, is short enough, says what it must (capability advertised, algorithms listed, matches counted, named and scored within 100, store verified) and what must follow it can be asked for |
| ResolverAddresses.QueryReads | crates/encypher-c2pa/src/soft_binding.rs:589-676 | The query string of each kind of query |
| ResolverAddresses.DirectoryExact | crates/encypher-c2pa/src/soft_binding.rs:1104-1113 | A directory is the path up to and including a final slash, without query or fragment |
| ResolverAddresses.CreateExact | crates/encypher-c2pa/src/soft_binding.rs:341-410 | A session is created exactly if it may go online, its query is well formed and consented to, every configured origin is one, and its root has a configured origin and no credentials; it is set up with just what it was given |
| ResolverSession.SoftBindingSession.NextRequest | crates/encypher-c2pa/src/soft_binding.rs:412-423 | The pending request with its method, address, media types, body and size limit |
| ResolverSession.SoftBindingSession.AcceptResponse | crates/encypher-c2pa/src/soft_binding.rs:425-454 | The session becomes what the protocol says, refused answers included |
| ResolverSession.SoftBindingSession.AcceptDiscovery | crates/encypher-c2pa/src/soft_binding.rs:477-493 | Endpoints resolved and checked before anything is stored |
| ResolverSession.SoftBindingSession.AcceptCapabilities | crates/encypher-c2pa/src/soft_binding.rs:495-537 | The route must be advertised; status or algorithms next |
| ResolverSession.SoftBindingSession.AcceptStatus | crates/encypher-c2pa/src/soft_binding.rs:539-550 | Stores a well-formed status |
| ResolverSession.SoftBindingSession.ScheduleAlgorithms | crates/encypher-c2pa/src/soft_binding.rs:552-562 | Asks for the supported algorithms |
| ResolverSession.SoftBindingSession.AcceptAlgorithms | crates/encypher-c2pa/src/soft_binding.rs:564-676 | Every selected algorithm must be listed; the query next, addressed as ResolverAddresses.EveryRequestAddressed says |
| ResolverSession.SoftBindingSession.AcceptMatches | crates/encypher-c2pa/src/soft_binding.rs:678-701 | Counts and checks the matches |
| ResolverSession.SoftBindingSession.ScheduleNextManifest | crates/encypher-c2pa/src/soft_binding.rs:703-730 | Takes the next match and asks its repository |
| ResolverSession.SoftBindingSession.AcceptManifest | crates/encypher-c2pa/src/soft_binding.rs:732-760 | Verifies and records the store; its receipt or the next manifest |
| ResolverSession.SoftBindingSession.AcceptReceipt | crates/encypher-c2pa/src/soft_binding.rs:762-766 | Files the receipt with its manifest |
| ResolverSession.SoftBindingSession.Finish | crates/encypher-c2pa/src/soft_binding.rs:456-475 | The resolution, or that something is pending or missing |
| ResolverSession.CreateSession | crates/encypher-c2pa/src/soft_binding.rs:341-410 | A session or the first reason there is none |
| ResolverSession.CollectOrigins | crates/encypher-c2pa/src/soft_binding.rs:1056-1082 | The loop over configured origins |
| ResolverSession.ConductSession | crates/encypher-c2pa/src/soft_binding.rs:959-986 | The loop puts each request to the transport, ends, stops at the first failure, and finishes |
| OnlineEvidence.EvidenceStable | crates/encypher-c2pa/src/native_online.rs:182-289 | Over any rounds, split anywhere, a settled outcome never changes; caller evidence is never replaced or fetched; every other outcome is what the one call to its address settled, and every settling call is kept |
| OnlineEvidence.TransportAtMostOnce | crates/encypher-c2pa/src/native_online.rs:339-395 | Each address reaches the transport at most once for a body, each certificate and request at most once for OCSP; every call goes to its need's own address under its kind's limit, and only OCSP posts a body or may use plain HTTP |
| OnlineEvidence.BudgetBound | crates/encypher-c2pa/src/online.rs:440-556 | With a fetcher that respects its request, one verification uses at most 16 requests and receives at most 64 MiB and one octet, failed reads included |
| OnlineEvidence.SpentForGood | crates/encypher-c2pa/src/online.rs:495-515 | Once the budget is spent, any further rounds call nothing, settle nothing, and record only skipped attempts |
| OnlineEvidence.FetchBalanced | crates/encypher-c2pa/src/online.rs:517-556 | The budget is what the calls have left of it |
| OnlineTrace.TraceExact | crates/encypher-c2pa/src/native_online.rs:182-395 | Over any rounds: consent is asked exactly once for each thing the caller did not bring, in order of first visit; exactly the visits whose own question was answered yes are attempted, each once and in order, through the transport with exactly the request its need calls for and the answer it gave, until the budget is spent; the report names exactly what was visited without caller evidence, once each, in order, and says whether consent was given; caller evidence stays as given and every other outcome is what the call to its address settled |
| OnlineTrace.DocumentsExact | crates/encypher-c2pa/src/native_online.rs:243-320 | The DID documents handed on are exactly those of the last usable request of each unpinned DID |
| OnlineTrace.OcspUpdateExact | crates/encypher-c2pa/src/native_online.rs:339-395 | The update of a round holds the first answer that its calls brought for each certificate, the empty one for a discarded body, and each unreachable certificate once, in order |
| OnlineState.NativeOnline.constructor | crates/encypher-c2pa/src/native_online.rs:146-158 | Caller evidence and a full budget |
| OnlineState.NativeOnline.PushNeeded | crates/encypher-c2pa/src/native_online.rs:175-179 | Reports each need once |
| OnlineState.NativeOnline.FetchOne | crates/encypher-c2pa/src/online.rs:428-556 | Skips when spent, otherwise calls the transport and charges the budget |
| OnlineState.NativeOnline.Get | crates/encypher-c2pa/src/native_online.rs:206-239 | Asks for consent and fetches unless there is an outcome or an earlier attempt, and files what the response settles; OnlineTrace.TraceExact says when |
| OnlineState.NativeOnline.EnsureGraphResource | crates/encypher-c2pa/src/native_online.rs:182-240 | One frontier item, reported and fetched as OnlineTrace.TraceExact says |
| OnlineState.NativeOnline.ResolveOneDid | crates/encypher-c2pa/src/native_online.rs:254-317 | One DID, fetched with consent only, marking the attempt that brought an unusable document |
| OnlineState.NativeOnline.ResolveDidDocuments | crates/encypher-c2pa/src/native_online.rs:243-320 | The loop over DID requests |
| OnlineState.NativeOnline.FetchOcspNeeds | crates/encypher-c2pa/src/native_online.rs:339-395 | The loop over OCSP needs and its update |
| TrustWindows.AcceptanceExact | crates/encypher-c2pa/src/lib.rs:2245-2365 | A certificate is accepted at an instant exactly when it should be: one that any source gives a window, only inside the bounds and between the not_before and not_after of every such source; any other as bundled, or inside the bounds if the caller or a source supplied it |
| TrustWindows.WindowedOnce | crates/encypher-c2pa/src/lib.rs:2310-2350 | Such a certificate has exactly one entry, in force exactly at the instants in the bounds and all its windows |
| TrustWindows.OrderIndependent | crates/encypher-c2pa/src/lib.rs:2263-2333 | Lists of the same sources, in any order and multiplicity, succeed alike and accept alike |
| TrustWindows.WidensExactly | crates/encypher-c2pa/src/lib.rs:2334-2351 | One more windowed source widens acceptance exactly when it gives the first window to a certificate no caller material named and no bundled copy accepts then |
| TrustWindows.NeverWidens | crates/encypher-c2pa/src/lib.rs:2334-2351 | With unbounded bundled copies it never widens when a listed certificate is accepted |
| TrustWindows.BoundedCopyWidens | crates/encypher-c2pa/src/lib.rs:2339-2349 | A bundled copy with a window of its own is widened in a concrete case |
| TrustWindows.ReadableExact | crates/encypher-c2pa/src/lib.rs:2263-2309 | Resolution succeeds exactly when the bundle and each single source can be read: a valid address, a kind, no empty identifier, readable instants whose start is not after their end, and certificates |
| TrustWindows.AnchorsSourced | crates/encypher-c2pa/src/lib.rs:2245-2365 | Every anchor of a resolved store is a bundled one as it was, one of the caller's bundle in the bounds, or one of a source labelled with that source, all for the purpose asked; without sources the store is what was given |
| TrustWindows.InstallAllMeans | crates/encypher-c2pa/src/lib.rs:2310-2327 | Installing a source's anchors keeps one entry per certificate and intersects windows |
| TrustWindows.RetainMeans | crates/encypher-c2pa/src/lib.rs:2339-2349 | Removing duplicates drops exactly the certificates with a windowed entry |
| TrustWindows.ExtendAdds | crates/encypher-c2pa/src/lib.rs:2416-2427 | Appending configured anchors accepts what either accepts |
| TrustResolution.Resolve | crates/encypher-c2pa/src/lib.rs:2245-2365 | The loop over sources and the merge compute the specified store, error for error, hence accept as TrustWindows.AcceptanceExact says |
| TrustResolution.InstallEach | crates/encypher-c2pa/src/lib.rs:2310-2327 | Narrowing or adding entries in place |
| TrustResolution.RetainUnwindowed | crates/encypher-c2pa/src/lib.rs:2339-2349 | The retained anchors in order |

## Left out

- FLV input (crates/encypher-c2pa/src/ertmp_wire.rs:152-263): one more tag loop over the same media parsers, without chunk streams or bindings.
- AMF3 (crates/encypher-c2pa/src/ertmp_wire/amf3.rs): the pair reader is a function from octets to the pairs found in turn and whether the end was reached; its own pair and byte budgets are not modelled, since the sink refuses the same pair for the same reason.
- Allocation failure and panics: environment behaviour. A buffer's real capacity is any number at least as large as requested; the round trip assumes the excess is bounded by the slack the sender plans with.
- Video and audio Multitrack: the two loops of the source differ only in codec table and permitted packet types and are one member parameterised by media type.
- Errors: constructors; the text and the index of the offending source, track or tag are not modelled. The exactness theorems say when an operation succeeds and what it does; which of several errors is given follows the order of the checks and is characterised further only for segments (`ErtmpReasons.ReasonTrue`), failures and fatal errors of the verifier.
- CBOR decoding in place: crates/encypher-c2pa/src/c2pa-cbor/decode.rs is modelled by functions that return position and node budget rather than by a mutable cursor. Floats are eight opaque octets with a finiteness flag; widening of half and single floats is a parameter.
- Hashing, COSE, manifest parsing and validation: parameters. The digest preimage carries no frame lengths, so nothing is claimed about its injectivity over frame lists.
- Key ids are octets rather than hex text; the verdict's manifest list is a map from id to report rather than a sorted list.
- ErtmpCommute.TracksCommute: failures are compared as a multiset, because their order in the report follows the event order.
- The separate receipt submission session and the HTTP transport of the resolver (crates/encypher-c2pa/src/soft_binding.rs:781-957, 1012-1043): two fixed requests under the same endpoint checks.
- URL and JSON handling: parameters; editing path or query of a URL is assumed to keep its origin and credentials.
- Marking a fetched store as malformed after discovery, and adding the final pass's needs to the report (crates/encypher-c2pa/src/native_online.rs:322-337, 397-404): two updates of the report alone.
- The legacy batch fetch (crates/encypher-c2pa/src/online.rs:559-745), address classification and the HTTP agent: a second budget loop, and table lookups.
- Certificate type splitting and CAWG configurations (crates/encypher-c2pa/src/lib.rs:2367-2413): certificate parsing.
- Bindings for other languages, the command line, telemetry, consent storage, static trust data and report assembly: marshalling, input and output, and single decisions.
