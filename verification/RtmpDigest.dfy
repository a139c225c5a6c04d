/** What the verifier hashes is what the wire carried. */
module RtmpDigest {
  import opened Octets
  import opened ErtmpTypes
  import opened ErtmpVerifier
  import opened ErtmpVerdict
  import opened ErtmpEvidence
  import opened RtmpMedia
  import opened RtmpChunks
  import opened RtmpEvents
  import opened RtmpConnections

  // ---- Composition offsets -------------------------------------------------------------------

  /** Writing the three octets of a signed offset undoes reading it. */
  lemma OffsetWritesBack(b: seq<byte>)
    requires |b| >= 3
    ensures OffsetOctets(SignedU24(b)) == b[..3]
  {
    var v := U24(b);
    OffsetWord(SignedU24(b));
    Digits3(v);
    U24Digits(b);
  }

  lemma U24Digits(b: seq<byte>)
    requires |b| >= 3
    ensures U24(b) % 256 == b[2] && U24(b) / 256 % 256 == b[1] && U24(b) / 256 / 256 == b[0]
  {
    var high: int := b[0] * 256 + b[1] as int;
    assert U24(b) == high * 256 + b[2] as int;
    assert U24(b) / 256 == high && U24(b) % 256 == b[2];
    assert high / 256 == b[0] && high % 256 == b[1];
  }

  /** The low 24 bits of an offset in range. */
  lemma OffsetWord(offset: int)
    requires OffsetInRange(offset)
    ensures (offset % TWO32) % 0x100_0000 == if offset < 0 then offset + 0x100_0000 else offset
  {
    if offset < 0 {
      assert offset % TWO32 == offset + TWO32;
      assert offset + TWO32 == 255 * 0x100_0000 + (offset + 0x100_0000);
    }
  }

  /** And reading undoes writing, for every offset in range. */
  lemma OffsetReadsBack(offset: int)
    requires OffsetInRange(offset)
    ensures |OffsetOctets(offset)| == 3 && SignedU24(OffsetOctets(offset)) == offset
  {
    OffsetWord(offset);
    var v := (offset % TWO32) % 0x100_0000;
    Digits3(v);
    assert U24([v / 256 / 256, v / 256 % 256, v % 256]) == v;
  }

  // ---- Coded frames ------------------------------------------------------------------------------

  /** One frame was appended whose hashed octets are the timestamp and then the packet's own octets. */
  ghost predicate HashesVerbatim(m: Media, r: Media, t: Track, o: Origin, octets: seq<byte>) {
    && |r.sink.events| == |m.sink.events| + 1
    && r.sink.events[..|m.sink.events|] == m.sink.events
    && var e := r.sink.events[|m.sink.events|];
       e.IsFrameOn(t) && e.timestamp == o.timestamp && FrameEventOctets(e) == BigEndian(4, o.timestamp) + octets
  }

  lemma PushedFrame(lim: Limits, m: Media, b: BoundTracks, t: Track, o: Origin, body: seq<byte>, context: Context)
    requires |body| > 3 && Push(lim, m.sink, Frame(t, o.csid, o.timestamp, SignedU24(body), body[3..]), Some(context)).Ok?
    ensures var s := Push(lim, m.sink, Frame(t, o.csid, o.timestamp, SignedU24(body), body[3..]), Some(context)).value;
            HashesVerbatim(m, Media(b, s), t, o, body)
  {
    hide SignedU24, OffsetOctets, BigEndian;
    OffsetWritesBack(body);
    assert BigEndian(4, o.timestamp) + body[..3] + body[3..] == BigEndian(4, o.timestamp) + body;
  }

  /** Packet types that carry a coded frame: with its composition offset where the codec has one, or without. */
  predicate Coded(packet: nat) {
    packet == 1 || packet == 3
  }

  /** What is hashed for a coded-frame body: itself if it carries its offset, else a zero offset and then itself. */
  function HashedBody(packet: nat, codec: Codec, body: seq<byte>): seq<byte> {
    if packet == 1 && codec.HasOffset() then body else [0, 0, 0] + body
  }

  lemma PushedPlainFrame(lim: Limits, m: Media, b: BoundTracks, t: Track, o: Origin, body: seq<byte>, context: Context)
    requires Push(lim, m.sink, Frame(t, o.csid, o.timestamp, 0, body), Some(context)).Ok?
    ensures HashesVerbatim(m, Media(b, Push(lim, m.sink, Frame(t, o.csid, o.timestamp, 0, body), Some(context)).value), t, o, [0, 0, 0] + body)
  {
    Digits3(0);
    hide BigEndian;
    assert BigEndian(4, o.timestamp) + [0, 0, 0] + body == BigEndian(4, o.timestamp) + ([0, 0, 0] + body);
  }

  /** One coded-frame packet of one track. */
  lemma CodedFrameVerbatim(amf: Amf, lim: Limits, m: Media, packet: nat, codec: Codec, body: seq<byte>, t: Track, o: Origin, multitrack: bool)
    requires t.media.Video? && Coded(packet) && Packet(amf, lim, m, packet, codec, body, t, o, multitrack).Ok?
    ensures HashesVerbatim(m, Packet(amf, lim, m, packet, codec, body, t, o, multitrack).value, t, o, HashedBody(packet, codec, body))
  {
    hide SignedU24, Push, HashesVerbatim, Associate, FourCc;
    var b := Associate(m.bindings, t, o.msid).value;
    var context := Context(o.msid, Some(FourCc(codec)), multitrack);
    if packet == 1 && codec.HasOffset() {
      PushedFrame(lim, m, b, t, o, body, context);
    } else {
      PushedPlainFrame(lim, m, b, t, o, body, context);
    }
  }

  /** An enhanced video message with one track, whatever extensions precede its codec. */
  lemma EnhancedFrameVerbatim(amf: Amf, lim: Limits, m: Media, p: seq<byte>, o: Origin)
    requires p != [] && p[0] >= 128 && p[0] / 16 % 8 != 5 && ParseVideo(amf, lim, m, p, o).Ok?
    requires SkipModEx(p, 1, p[0] % 16).Ok? && Coded(SkipModEx(p, 1, p[0] % 16).value.0)
    ensures var (packet, off) := SkipModEx(p, 1, p[0] % 16).value;
            && off + 4 <= |p| && VideoCodec(p[off..off + 4]).Some?
            && HashesVerbatim(m, ParseVideo(amf, lim, m, p, o).value, Track(Video, 0), o,
                              HashedBody(packet, VideoCodec(p[off..off + 4]).value, p[off + 4..]))
  {
    hide Packet, SkipModEx, VideoCodec, HashesVerbatim, HashedBody;
    var (packet, off) := SkipModEx(p, 1, p[0] % 16).value;
    CodedFrameVerbatim(amf, lim, m, packet, VideoCodec(p[off..off + 4]).value, p[off + 4..], Track(Video, 0), o, false);
  }

  // ---- Multitrack messages ---------------------------------------------------------------------------

  /** The parts of a Multitrack message from `off` on, as far as they can be read. */
  function Parts(p: seq<byte>, off: nat, mode: nat, shared: Option<Codec>, seen: set<byte>): seq<TrackPart>
    requires off <= |p|
    decreases |p| - off
  {
    if off == |p| || ReadPart(Video, p, off, mode, shared, seen).Err? then []
    else
      var part := ReadPart(Video, p, off, mode, shared, seen).value;
      [part] + Parts(p, part.end, mode, shared, seen + {part.id})
  }

  /** The event is the frame of this part: on its track, at the message's timestamp, hashed as the part's own octets. */
  ghost predicate FrameOf(e: Event, packet: nat, p: seq<byte>, part: TrackPart, o: Origin) {
    && part.start <= part.end <= |p|
    && e.IsFrameOn(Track(Video, part.id)) && e.timestamp == o.timestamp
    && FrameEventOctets(e) == BigEndian(4, o.timestamp) + HashedBody(packet, part.codec, p[part.start..part.end])
  }

  /** One frame was appended for each part, in order. */
  ghost predicate FramesOf(m: Media, r: Media, packet: nat, p: seq<byte>, parts: seq<TrackPart>, o: Origin) {
    var n := |m.sink.events|;
    && |r.sink.events| == n + |parts| && r.sink.events[..n] == m.sink.events
    && forall k :: 0 <= k < |parts| ==> FrameOf(r.sink.events[n + k], packet, p, parts[k], o)
  }

  lemma OneMoreFrame(m: Media, m1: Media, r: Media, packet: nat, p: seq<byte>, part: TrackPart, rest: seq<TrackPart>, o: Origin)
    requires part.start <= part.end <= |p|
    requires HashesVerbatim(m, m1, Track(Video, part.id), o, HashedBody(packet, part.codec, p[part.start..part.end]))
    requires FramesOf(m1, r, packet, p, rest, o)
    ensures FramesOf(m, r, packet, p, [part] + rest, o)
  {
    hide HashedBody, FrameEventOctets, BigEndian;
    var n, parts := |m.sink.events|, [part] + rest;
    assert r.sink.events[..n] == r.sink.events[..n + 1][..n] == m.sink.events;
    assert r.sink.events[n] == r.sink.events[..n + 1][n] == m1.sink.events[n];
    forall k | 0 <= k < |parts| ensures FrameOf(r.sink.events[n + k], packet, p, parts[k], o) {
      if k > 0 {
        assert FrameOf(r.sink.events[n + 1 + (k - 1)], packet, p, rest[k - 1], o);
      }
    }
  }

  lemma {:induction false} TracksVerbatim(amf: Amf, lim: Limits, m: Media, p: seq<byte>, off: nat, mode: nat, packet: nat,
                                          shared: Option<Codec>, seen: set<byte>, o: Origin)
    requires off <= |p| && Coded(packet) && Tracks(amf, lim, m, Video, p, off, mode, packet, shared, seen, o).Ok?
    ensures FramesOf(m, Tracks(amf, lim, m, Video, p, off, mode, packet, shared, seen, o).value, packet, p, Parts(p, off, mode, shared, seen), o)
    decreases |p| - off
  {
    hide ReadPart, Packet, HashedBody, HashesVerbatim;
    if off < |p| {
      var part := ReadPart(Video, p, off, mode, shared, seen).value;
      var body, t := p[part.start..part.end], Track(Video, part.id);
      CodedFrameVerbatim(amf, lim, m, packet, part.codec, body, t, o, true);
      var m1 := Packet(amf, lim, m, packet, part.codec, body, t, o, true).value;
      TracksVerbatim(amf, lim, m1, p, part.end, mode, packet, shared, seen + {part.id}, o);
      hide FramesOf;
      OneMoreFrame(m, m1, Tracks(amf, lim, m, Video, p, off, mode, packet, shared, seen, o).value, packet, p, part,
                   Parts(p, part.end, mode, shared, seen + {part.id}), o);
    }
  }

  /** The parts of a whole Multitrack message. */
  function MessageParts(p: seq<byte>): seq<TrackPart> {
    if p == [] then []
    else if p[0] / 16 == 2 then Parts(p, 1, 2, None, {})
    else if |p| < 5 then []
    else Parts(p, 5, p[0] / 16, VideoCodec(p[1..5]), {})
  }

  /** Read to the end, part after part, no track id twice. */
  lemma {:induction false} PartsTile(amf: Amf, lim: Limits, m: Media, p: seq<byte>, off: nat, mode: nat, packet: nat, shared: Option<Codec>,
                                     seen: set<byte>, o: Origin)
    requires off <= |p| && Tracks(amf, lim, m, Video, p, off, mode, packet, shared, seen, o).Ok?
    ensures var parts := Parts(p, off, mode, shared, seen);
            && (if parts == [] then off == |p| else parts[|parts| - 1].end == |p|)
            && (forall k :: 0 <= k < |parts| ==> parts[k].id !in seen)
            && (forall j, k :: 0 <= j < k < |parts| ==> parts[j].id != parts[k].id)
    decreases |p| - off
  {
    hide ReadPart, Packet;
    if off < |p| {
      var part := ReadPart(Video, p, off, mode, shared, seen).value;
      var m1 := Packet(amf, lim, m, packet, part.codec, p[part.start..part.end], Track(Video, part.id), o, true).value;
      PartsTile(amf, lim, m1, p, part.end, mode, packet, shared, seen + {part.id}, o);
    }
  }

  /** A Multitrack message of coded frames: one frame per part, in order, each hashed as its part's own octets; the parts are
      of different tracks and reach to the end of the message. */
  lemma MultitrackFramesVerbatim(amf: Amf, lim: Limits, m: Media, p: seq<byte>, frameType: nat, o: Origin)
    requires Multitrack(amf, lim, m, Video, p, frameType, o).Ok? && Coded(p[0] % 16)
    ensures FramesOf(m, Multitrack(amf, lim, m, Video, p, frameType, o).value, p[0] % 16, p, MessageParts(p), o)
    ensures var parts := MessageParts(p);
            && parts != [] && parts[|parts| - 1].end == |p|
            && (forall j, k :: 0 <= j < k < |parts| ==> parts[j].id != parts[k].id)
  {
    var off := if p[0] / 16 == 2 then 1 else 5;
    var shared := if p[0] / 16 == 2 then None else VideoCodec(p[1..5]);
    NonemptyTracks(amf, lim, m, p, off, p[0] / 16, p[0] % 16, shared, o);
    hide Tracks, VideoCodec, FramesOf, Parts;
    TracksVerbatim(amf, lim, m, p, off, p[0] / 16, p[0] % 16, shared, {}, o);
    PartsTile(amf, lim, m, p, off, p[0] / 16, p[0] % 16, shared, {}, o);
  }

  /** A message without tracks is refused. */
  lemma NonemptyTracks(amf: Amf, lim: Limits, m: Media, p: seq<byte>, off: nat, mode: nat, packet: nat, shared: Option<Codec>, o: Origin)
    requires off <= |p| && Tracks(amf, lim, m, Video, p, off, mode, packet, shared, {}, o).Ok?
    ensures Parts(p, off, mode, shared, {}) != []
  {
    hide ReadPart, Packet;
  }

  /** The same of a whole enhanced video message behind any extensions. */
  lemma MultitrackMessageVerbatim(amf: Amf, lim: Limits, m: Media, p: seq<byte>, o: Origin)
    requires p != [] && p[0] >= 128 && ParseVideo(amf, lim, m, p, o).Ok?
    requires SkipModEx(p, 1, p[0] % 16).Ok? && SkipModEx(p, 1, p[0] % 16).value.0 == 6
    ensures var inner := p[SkipModEx(p, 1, p[0] % 16).value.1..];
            && inner != []
            && (Coded(inner[0] % 16) ==> FramesOf(m, ParseVideo(amf, lim, m, p, o).value, inner[0] % 16, inner, MessageParts(inner), o))
  {
    hide SkipModEx, FramesOf, MessageParts, Tracks;
    var inner := p[SkipModEx(p, 1, p[0] % 16).value.1..];
    if Coded(inner[0] % 16) {
      MultitrackFramesVerbatim(amf, lim, m, inner, p[0] / 16 % 8, o);
    }
  }

  /** A legacy AVC frame. */
  lemma LegacyFrameVerbatim(amf: Amf, lim: Limits, m: Media, p: seq<byte>, o: Origin)
    requires p != [] && p[0] < 128 && p[0] / 16 != 5 && ParseVideo(amf, lim, m, p, o).Ok?
    ensures |p| >= 5
    ensures p[1] == 1 ==> HashesVerbatim(m, ParseVideo(amf, lim, m, p, o).value, Track(Video, 0), o, p[2..])
  {
    hide U24, Push, HashesVerbatim, Associate, FourCc;
    if p[1] == 1 {
      var b := Associate(m.bindings, Track(Video, 0), o.msid).value;
      assert U24(p[2..5]) == U24(p[2..]) by { SameU24(p[2..5], p[2..]); }
      assert p[2..][3..] == p[5..];
      PushedFrame(lim, m, b, Track(Video, 0), o, p[2..], Context(o.msid, Some(FourCc(Avc)), false));
    }
  }

  lemma SameU24(a: seq<byte>, b: seq<byte>)
    requires |a| >= 3 && |b| >= 3 && a[0] == b[0] && a[1] == b[1] && a[2] == b[2]
    ensures U24(a) == U24(b)
  {
  }

  // ---- The verifier's range check ------------------------------------------------------------------

  predicate NoRangeFailure(failures: seq<Failure>) {
    forall i :: 0 <= i < |failures| ==> !failures[i].OffsetOutOfRange?
  }

  lemma {:induction false} ReconnectNoRange(s: State, ts: seq<Track>)
    requires NoRangeFailure(s.failures)
    ensures NoRangeFailure(CloseAllAtReconnect(s, ts).failures)
  {
    if ts != [] {
      ReconnectNoRange(s, ts[..|ts| - 1]);
    }
  }

  lemma {:induction false} EndNoRange(s: State, ts: seq<Track>)
    requires NoRangeFailure(s.failures)
    ensures NoRangeFailure(CloseAllAtEnd(s, ts).failures)
  {
    if ts != [] {
      EndNoRange(s, ts[..|ts| - 1]);
    }
  }

  lemma StepNoRange(env: Env, s: State, e: Event)
    requires NoRangeFailure(s.failures) && (e.Frame? ==> OffsetInRange(e.offset)) && Step(env, s, e).Ok?
    ensures NoRangeFailure(Step(env, s, e).value.failures)
  {
    hide Authenticate, InOrder, CloseAllAtReconnect;
    match e
    case CodecConfig(_, _, _) =>
    case Frame(_, _, _, _, _) =>
    case Metadata(t, csid, timestamp, name, value) =>
      if name.C2paSegmentInfo? {
        AuthenticateFailures(env, WithPending(s, t, PendingOf(s, t)), t, csid, timestamp, value);
      }
    case Reconnect => ReconnectNoRange(s, InOrder(s.tracks.Keys));
  }

  lemma {:induction false} RunNoRange(env: Env, s: State, es: seq<Event>)
    requires NoRangeFailure(s.failures) && Run(env, s, es).Ok?
    requires forall i :: 0 <= i < |es| && es[i].Frame? ==> OffsetInRange(es[i].offset)
    ensures NoRangeFailure(Run(env, s, es).value.failures)
  {
    hide Step;
    if es != [] {
      var prefix := es[..|es| - 1];
      RunNoRange(env, s, prefix);
      StepNoRange(env, Run(env, s, prefix).value, es[|es| - 1]);
    }
  }

  lemma {:induction false} RunFatal(env: Env, s: State, es: seq<Event>)
    ensures Run(env, s, es) != Err(TooManyEvents)
  {
    if es != [] {
      RunFatal(env, s, es[..|es| - 1]);
    }
  }

  /** What the verifier is given for the traces: the first connection's negotiation and all events. */
  function InputOf(traces: seq<Trace>, s: Sink): ErtmpVerifier.Input
    requires traces != []
  {
    ErtmpVerifier.Input(traces[0].clientCaps, traces[0].serverCaps, traces[0].objectEncoding, s.events)
  }

  /** For every accepted wire, the verifier finds the connection negotiated, the event count within its limit, and no
      composition offset out of range. */
  lemma WireInputInRange(amf: Amf, lim: Limits, alloc: nat -> Allocator, env: Env, traces: seq<Trace>)
    requires RtmpConnections.Input(amf, lim, alloc, traces).Ok?
    ensures traces != []
    ensures var input := InputOf(traces, RtmpConnections.Input(amf, lim, alloc, traces).value);
            && input.Negotiated() && |input.events| <= MAX_EVENTS
            && Verify(env, input) != Err(TooManyEvents)
            && (Verify(env, input).Ok? ==> NoRangeFailure(Verify(env, input).value.failures))
  {
    hide DecodeTraces, Step, OneStreamPerTrack, Reconnects;
    InputWellFormed(amf, lim, alloc, traces);
    var s := RtmpConnections.Input(amf, lim, alloc, traces).value;
    var input := InputOf(traces, s);
    FramesInRange(lim, s);
    RunFatal(env, START, s.events);
    if Verify(env, input).Ok? {
      RunNoRange(env, START, s.events);
      var last := Run(env, START, s.events).value;
      EndNoRange(last, InOrder(last.tracks.Keys));
      hide Run, CloseAllAtEnd, InOrder;
    }
  }

  lemma FramesInRange(lim: Limits, s: Sink)
    requires SinkOk(lim, s)
    ensures |s.events| <= MAX_EVENTS
    ensures forall i :: 0 <= i < |s.events| && s.events[i].Frame? ==> OffsetInRange(s.events[i].offset)
  {
    forall i | 0 <= i < |s.events| && s.events[i].Frame? ensures OffsetInRange(s.events[i].offset) {
      assert EventOk(s.events[i], s.contexts[i]);
    }
  }
}
