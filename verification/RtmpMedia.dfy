/** From media messages to verifier events: legacy, enhanced, ModEx, Multitrack and Aggregate packets. */
module RtmpMedia {
  import opened Octets
  import opened ErtmpTypes

  const MAX_VERIFIER_EVENTS: nat := 1_000_000

  /** Octets an event context occupies in the payload account. */
  const CONTEXT_BYTES: nat := 16

  datatype Limits = Limits(
    maxWireBytes: nat,
    maxTotalWireBytes: nat,
    maxMessageBytes: nat,
    maxBufferedMessageBytes: nat,
    maxActiveChunkStreams: nat,
    maxEvents: nat,
    maxTotalEventPayloadBytes: nat,
    maxChunkSize: nat)

  datatype MediaError =
    | Short | BadPacket | UnsupportedCodec | RepeatedTrack | TagTooLong
    | EventLimit | PayloadLimit | ControlStreamZero | StreamConflict

  // ---- Fields ---------------------------------------------------------------------

  function U24(b: seq<byte>): (n: nat)
    requires |b| >= 3
    ensures n < 0x100_0000
  {
    b[0] as int * 0x1_0000 + b[1] as int * 0x100 + b[2] as int
  }

  function U32(b: seq<byte>): (n: u32)
    requires |b| >= 4
  {
    b[0] as int * 0x100_0000 + b[1] as int * 0x1_0000 + b[2] as int * 0x100 + b[3] as int
  }

  function U32Little(b: seq<byte>): (n: u32)
    requires |b| >= 4
  {
    b[3] as int * 0x100_0000 + b[2] as int * 0x1_0000 + b[1] as int * 0x100 + b[0] as int
  }

  /** Two's-complement reading of a 24-bit field. */
  function SignedU24(b: seq<byte>): (n: int)
    requires |b| >= 3
    ensures -0x80_0000 <= n < 0x80_0000
  {
    if U24(b) >= 0x80_0000 then U24(b) - 0x100_0000 else U24(b)
  }

  // ---- Codecs -----------------------------------------------------------------------

  datatype Codec = Vp8 | Vp9 | Av1 | Avc | Hevc | Vvc | Ac3 | Eac3 | Opus | Mp3 | Flac | Aac {
    /** Codecs whose coded frames carry a composition offset. */
    predicate HasOffset() { Avc? || Hevc? || Vvc? }
  }

  function FourCc(c: Codec): seq<byte> {
    match c
    case Vp8 => [118, 112, 48, 56]
    case Vp9 => [118, 112, 48, 57]
    case Av1 => [97, 118, 48, 49]
    case Avc => [97, 118, 99, 49]
    case Hevc => [104, 118, 99, 49]
    case Vvc => [118, 118, 99, 49]
    case Ac3 => [97, 99, 45, 51]
    case Eac3 => [101, 99, 45, 51]
    case Opus => [79, 112, 117, 115]
    case Mp3 => [46, 109, 112, 51]
    case Flac => [102, 76, 97, 67]
    case Aac => [109, 112, 52, 97]
  }

  function VideoCodec(f: seq<byte>): Option<Codec> {
    if f == FourCc(Vp8) then Some(Vp8) else if f == FourCc(Vp9) then Some(Vp9) else if f == FourCc(Av1) then Some(Av1)
    else if f == FourCc(Avc) then Some(Avc) else if f == FourCc(Hevc) then Some(Hevc) else if f == FourCc(Vvc) then Some(Vvc)
    else None
  }

  function AudioCodec(f: seq<byte>): Option<Codec> {
    if f == FourCc(Ac3) then Some(Ac3) else if f == FourCc(Eac3) then Some(Eac3) else if f == FourCc(Opus) then Some(Opus)
    else if f == FourCc(Mp3) then Some(Mp3) else if f == FourCc(Flac) then Some(Flac) else if f == FourCc(Aac) then Some(Aac)
    else None
  }

  function CodecOf(media: MediaType, f: seq<byte>): Option<Codec> {
    if media.Video? then VideoCodec(f) else AudioCodec(f)
  }

  // ---- The event sink -----------------------------------------------------------------

  datatype Context = Context(msid: Option<u32>, fourcc: Option<seq<byte>>, multitrack: bool)

  datatype Sink = Sink(events: seq<Event>, contexts: seq<Option<Context>>, payloadBytes: nat)

  const EMPTY_SINK := Sink([], [], 0)

  function NameLength(n: PairName): nat {
    match n case C2paManifest => 12 case C2paSegmentInfo => 15 case OtherName(text) => |text|
  }

  function EventSize(e: Event): nat {
    match e
    case CodecConfig(_, _, payload) => |payload|
    case Frame(_, _, _, _, data) => |data|
    case Metadata(_, _, _, name, value) => NameLength(name) + |value|
    case Reconnect => 0
  }

  function EventCapacity(lim: Limits): nat {
    if lim.maxEvents < MAX_VERIFIER_EVENTS then lim.maxEvents else MAX_VERIFIER_EVENTS
  }

  /** Append one event if both the event limit and the byte limit allow it. */
  function Push(lim: Limits, s: Sink, e: Event, context: Option<Context>): Result<Sink, MediaError> {
    if |s.events| >= EventCapacity(lim) then Err(EventLimit)
    else
      var next := s.payloadBytes + EventSize(e) + CONTEXT_BYTES;
      if next > lim.maxTotalEventPayloadBytes then Err(PayloadLimit)
      else Ok(Sink(s.events + [e], s.contexts + [context], next))
  }

  // ---- Tracks and message streams ----------------------------------------------------------

  /** Message stream each track is bound to, by media type and track id. */
  datatype Bindings = Bindings(video: seq<Option<u32>>, audio: seq<Option<u32>>) {
    ghost predicate Valid() { |video| == 256 && |audio| == 256 }

    function Slot(t: Track): Option<u32>
      requires Valid()
    {
      if t.media.Video? then video[t.id] else audio[t.id]
    }

    function Set(t: Track, msid: u32): (b: Bindings)
      requires Valid()
      ensures b.Valid()
    {
      if t.media.Video? then Bindings(video[t.id := Some(msid)], audio) else Bindings(video, audio[t.id := Some(msid)])
    }
  }

  type BoundTracks = b: Bindings | b.Valid() witness Bindings(seq(256, i => None), seq(256, i => None))

  const UNBOUND: BoundTracks := Bindings(seq(256, i => None), seq(256, i => None))

  function Associate(b: BoundTracks, t: Track, msid: Option<u32>): Result<BoundTracks, MediaError> {
    match msid
    case None => Ok(b)
    case Some(id) =>
      if id == 0 then Err(ControlStreamZero)
      else match b.Slot(t)
        case Some(existing) => if existing != id then Err(StreamConflict) else Ok(b)
        case None => Ok(b.Set(t, id))
  }

  /** What media parsing reads and writes. */
  datatype Media = Media(bindings: BoundTracks, sink: Sink)
  type Parsed = Result<Media, MediaError>

  /** Where a media packet came from. */
  datatype Origin = Origin(timestamp: u32, csid: u32, msid: Option<u32>)

  datatype Pair = Pair(name: PairName, value: seq<byte>)

  /** The pairs a reader finds in turn, and whether it gets to the end. */
  datatype Reading = Reading(pairs: seq<Pair>, complete: bool)

  /** Reader of AMF3 metadata, not modelled further. */
  type Amf = seq<byte> -> Reading

  // ---- Emitting one packet --------------------------------------------------------------------

  function PushPairs(lim: Limits, s: Sink, pairs: seq<Pair>, t: Track, o: Origin, context: Context): Result<Sink, MediaError>
    decreases |pairs|
  {
    if pairs == [] then Ok(s)
    else
      var s1 :- Push(lim, s, Metadata(t, o.csid, o.timestamp, pairs[0].name, pairs[0].value), Some(context));
      PushPairs(lim, s1, pairs[1..], t, o, context)
  }

  function EmitVideo(amf: Amf, lim: Limits, s: Sink, packet: nat, codec: Codec, body: seq<byte>, offset: int, t: Track, o: Origin, multitrack: bool)
    : Result<Sink, MediaError>
  {
    var context := Context(o.msid, Some(FourCc(codec)), multitrack);
    match packet
    case 0 => if body == [] then Err(BadPacket) else Push(lim, s, CodecConfig(t, o.csid, body), Some(context))
    case 1 => if body == [] then Err(BadPacket) else Push(lim, s, Frame(t, o.csid, o.timestamp, offset, body), Some(context))
    case 2 => if body != [] then Err(BadPacket) else Ok(s)
    case 3 =>
      if !codec.HasOffset() || body == [] then Err(BadPacket)
      else Push(lim, s, Frame(t, o.csid, o.timestamp, 0, body), Some(context))
    case 4 =>
      var s1 :- PushPairs(lim, s, amf(body).pairs, t, o, context);
      if amf(body).complete then Ok(s1) else Err(BadPacket)
    case 5 =>
      if codec != Av1 || body == [] then Err(BadPacket) else Push(lim, s, CodecConfig(t, o.csid, body), Some(context))
    case _ => Err(BadPacket)
  }

  predicate MultichannelOk(body: seq<byte>) {
    |body| >= 2 && |body| == (if body[0] == 0 then 2 else if body[0] == 1 then 6 else 2 + body[1] as int) && body[0] <= 2
  }

  function EmitAudio(lim: Limits, s: Sink, packet: nat, codec: Codec, body: seq<byte>, t: Track, o: Origin, multitrack: bool)
    : Result<Sink, MediaError>
  {
    var context := Context(o.msid, Some(FourCc(codec)), multitrack);
    match packet
    case 0 =>
      if codec.Ac3? || codec.Eac3? || codec.Mp3? || (body == [] && codec != Opus) then Err(BadPacket)
      else Push(lim, s, CodecConfig(t, o.csid, body), Some(context))
    case 1 => if body == [] then Err(BadPacket) else Push(lim, s, Frame(t, o.csid, o.timestamp, 0, body), Some(context))
    case 2 => if body != [] then Err(BadPacket) else Ok(s)
    case 4 => if MultichannelOk(body) then Ok(s) else Err(BadPacket)
    case _ => Err(BadPacket)
  }

  /** Composition offset and coded octets of a video packet body. */
  function SplitVideoBody(packet: nat, codec: Codec, body: seq<byte>): Result<(int, seq<byte>), MediaError> {
    if packet == 1 && codec.HasOffset() then
      if |body| < 3 then Err(Short) else Ok((SignedU24(body), body[3..]))
    else Ok((0, body))
  }

  /** One packet of one track: read the body, bind the track to its message stream, emit. */
  function Packet(amf: Amf, lim: Limits, m: Media, packet: nat, codec: Codec, body: seq<byte>, t: Track, o: Origin, multitrack: bool): Parsed {
    if t.media.Video? then
      var (offset, coded) :- SplitVideoBody(packet, codec, body);
      var b :- Associate(m.bindings, t, o.msid);
      var s :- EmitVideo(amf, lim, m.sink, packet, codec, coded, offset, t, o, multitrack);
      Ok(Media(b, s))
    else
      var b :- Associate(m.bindings, t, o.msid);
      var s :- EmitAudio(lim, m.sink, packet, codec, body, t, o, multitrack);
      Ok(Media(b, s))
  }

  // ---- ModEx -----------------------------------------------------------------------------------

  /** Skip timestamp-offset extensions; the packet type and offset that follow them. */
  function SkipModEx(p: seq<byte>, off: nat, packet: nat): (r: Result<(nat, nat), MediaError>)
    requires off <= |p|
    ensures r.Ok? ==> r.value.0 != 7 && off <= r.value.1 <= |p|
    decreases |p| - off
  {
    if packet != 7 then Ok((packet, off))
    else if off >= |p| then Err(Short)
    else if p[off] == 0xff && |p| - off - 1 < 2 then Err(Short)
    else
      var at := if p[off] == 0xff then off + 3 else off + 1;
      var length := if p[off] == 0xff then p[off + 1] as int * 256 + p[off + 2] as int + 1 else p[off] as int + 1;
      var end := at + length;
      if end >= |p| then Err(Short)
      else if length < 3 || U24(p[at..]) >= 1_000_000 || p[end] / 16 != 0 then Err(BadPacket)
      else SkipModEx(p, end + 1, p[end] % 16)
  }

  // ---- Multitrack --------------------------------------------------------------------------------

  /** Packet types a Multitrack message of this media type may carry. */
  predicate InnerPacket(media: MediaType, packet: nat) {
    if media.Video? then packet <= 5 else packet in {0, 1, 2, 4}
  }

  /** One track's part of a Multitrack message. */
  datatype TrackPart = TrackPart(codec: Codec, id: byte, start: nat, end: nat)

  /** The part at `off`. Only many-codec messages name a codec for each, only single-track messages leave out its size. */
  function ReadPart(media: MediaType, p: seq<byte>, off: nat, mode: nat, shared: Option<Codec>, seen: set<byte>): (r: Result<TrackPart, MediaError>)
    requires off < |p|
    ensures r.Ok? ==> off < r.value.start <= r.value.end <= |p| && r.value.id !in seen
  {
    if mode == 2 && |p| - off < 4 then Err(Short)
    else
      var codec := if mode == 2 then CodecOf(media, p[off..off + 4]) else shared;
      var at := if mode == 2 then off + 4 else off;
      if codec.None? then Err(UnsupportedCodec)
      else if at >= |p| then Err(Short)
      else if p[at] in seen then Err(RepeatedTrack)
      else if mode != 0 && |p| - at - 1 < 3 then Err(Short)
      else
        var size := if mode == 0 then |p| - at - 1 else U24(p[at + 1..]);
        var start := if mode == 0 then at + 1 else at + 4;
        if start + size > |p| then Err(Short) else Ok(TrackPart(codec.value, p[at], start, start + size))
  }

  /** The parts of a Multitrack message from `off` on. */
  function Tracks(amf: Amf, lim: Limits, m: Media, media: MediaType, p: seq<byte>, off: nat, mode: nat, packet: nat,
                  shared: Option<Codec>, seen: set<byte>, o: Origin): Parsed
    requires off <= |p|
    decreases |p| - off
  {
    if off == |p| then (if seen == {} then Err(BadPacket) else Ok(m))
    else
      var part :- ReadPart(media, p, off, mode, shared, seen);
      var m1 :- Packet(amf, lim, m, packet, part.codec, p[part.start..part.end], Track(media, part.id), o, true);
      Tracks(amf, lim, m1, media, p, part.end, mode, packet, shared, seen + {part.id}, o)
  }

  function Multitrack(amf: Amf, lim: Limits, m: Media, media: MediaType, p: seq<byte>, frameType: nat, o: Origin): Parsed {
    if p == [] then Err(Short)
    else
      var mode, packet := p[0] / 16, p[0] % 16;
      if mode > 2 || !InnerPacket(media, packet) then Err(BadPacket)
      else if media.Video? && packet != 4 && !(1 <= frameType <= 2) then Err(BadPacket)
      else if mode == 2 then Tracks(amf, lim, m, media, p, 1, mode, packet, None, {}, o)
      else if |p| < 5 then Err(Short)
      else
        var shared := CodecOf(media, p[1..5]);
        if shared.None? then Err(UnsupportedCodec)
        else Tracks(amf, lim, m, media, p, 5, mode, packet, shared, {}, o)
  }

  // ---- Messages ------------------------------------------------------------------------------------

  function VideoCommand(m: Media, body: seq<byte>): Parsed {
    if |body| != 1 || body[0] > 1 then Err(BadPacket) else Ok(m)
  }

  function LegacyVideo(amf: Amf, lim: Limits, m: Media, p: seq<byte>, o: Origin): Parsed
    requires p != [] && p[0] < 128
  {
    var frameType := p[0] / 16;
    if frameType == 5 then VideoCommand(m, p[1..])
    else if !(1 <= frameType <= 2) then Err(BadPacket)
    else if p[0] % 16 != 7 then Err(UnsupportedCodec)
    else if |p| < 5 then Err(Short)
    else if p[1] > 2 then Err(BadPacket)
    else
      var b :- Associate(m.bindings, Track(Video, 0), o.msid);
      var s :- EmitVideo(amf, lim, m.sink, p[1], Avc, p[5..], SignedU24(p[2..5]), Track(Video, 0), o, false);
      Ok(Media(b, s))
  }

  function ParseVideo(amf: Amf, lim: Limits, m: Media, p: seq<byte>, o: Origin): Parsed {
    if p == [] then Err(Short)
    else if p[0] < 128 then LegacyVideo(amf, lim, m, p, o)
    else
      var frameType := p[0] / 16 % 8;
      var (packet, off) :- SkipModEx(p, 1, p[0] % 16);
      if packet == 6 then Multitrack(amf, lim, m, Video, p[off..], frameType, o)
      else if packet != 4 && frameType == 5 then VideoCommand(m, p[off..])
      else if packet != 4 && !(1 <= frameType <= 2) then Err(BadPacket)
      else if packet >= 7 then Err(BadPacket)
      else if |p| - off < 4 then Err(Short)
      else
        var codec := VideoCodec(p[off..off + 4]);
        if codec.None? then Err(UnsupportedCodec)
        else Packet(amf, lim, m, packet, codec.value, p[off + 4..], Track(Video, 0), o, false)
  }

  function LegacyAudio(lim: Limits, m: Media, p: seq<byte>, o: Origin): Parsed
    requires p != []
  {
    var format := p[0] / 16;
    var b :- Associate(m.bindings, Track(Audio, 0), o.msid);
    if format == 10 then
      if |p| < 2 then Err(Short)
      else if p[1] > 1 then Err(BadPacket)
      else
        var s :- EmitAudio(lim, m.sink, p[1], Aac, p[2..], Track(Audio, 0), o, false);
        Ok(Media(b, s))
    else if format in {7, 8, 9, 12, 13, 14, 15} then Err(UnsupportedCodec)
    else if |p| == 1 then Err(BadPacket)
    else
      var s :- Push(lim, m.sink, Frame(Track(Audio, 0), o.csid, o.timestamp, 0, p[1..]), Some(Context(o.msid, None, false)));
      Ok(Media(b, s))
  }

  function ParseAudio(amf: Amf, lim: Limits, m: Media, p: seq<byte>, o: Origin): Parsed {
    if p == [] then Ok(m)
    else if p[0] / 16 != 9 then LegacyAudio(lim, m, p, o)
    else
      var (packet, off) :- SkipModEx(p, 1, p[0] % 16);
      if packet == 5 then Multitrack(amf, lim, m, Audio, p[off..], 0, o)
      else if packet !in {0, 1, 2, 4} then Err(BadPacket)
      else if |p| - off < 4 then Err(Short)
      else
        var codec := AudioCodec(p[off..off + 4]);
        if codec.None? then Err(UnsupportedCodec)
        else Packet(amf, lim, m, packet, codec.value, p[off + 4..], Track(Audio, 0), o, false)
  }

  // ---- Aggregates --------------------------------------------------------------------------------------

  const AUDIO_MESSAGE: byte := 8
  const VIDEO_MESSAGE: byte := 9
  const AMF3_SCRIPT_DATA: byte := 15
  const AMF0_SCRIPT_DATA: byte := 18
  const AGGREGATE_MESSAGE: byte := 22

  /** One tag of an Aggregate, at its normalized timestamp. */
  function ParseTag(amf: Amf, lim: Limits, m: Media, tag: byte, body: seq<byte>, o: Origin): Parsed {
    if tag == AUDIO_MESSAGE then ParseAudio(amf, lim, m, body, o)
    else if tag == VIDEO_MESSAGE then ParseVideo(amf, lim, m, body, o)
    else if tag == AMF3_SCRIPT_DATA || tag == AMF0_SCRIPT_DATA then Ok(m)
    else Err(BadPacket)
  }

  /** Tag timestamp: three octets low, one octet high. */
  function TagTimestamp(p: seq<byte>): (n: u32)
    requires |p| >= 4
  {
    U24(p) + p[3] as int * 0x100_0000
  }

  function Normalized(outer: u32, timestamp: u32, first: u32): u32 {
    (outer + timestamp - first) % TWO32
  }

  function ParseAggregate(amf: Amf, lim: Limits, m: Media, p: seq<byte>, off: nat, first: Option<u32>, o: Origin): Parsed
    requires off <= |p|
    decreases |p| - off
  {
    if off == |p| then Ok(m)
    else if |p| - off < 15 then Err(Short)
    else
      var size := U24(p[off + 1..]);
      if size > lim.maxMessageBytes then Err(TagTooLong)
      else if off + 11 + size + 4 > |p| then Err(Short)
      else if U32(p[off + 11 + size..]) != 11 + size then Err(BadPacket)
      else
        var timestamp := TagTimestamp(p[off + 4..]);
        var base := if first.Some? then first.value else timestamp;
        var m1 :- ParseTag(amf, lim, m, p[off], p[off + 11..off + 11 + size], o.(timestamp := Normalized(o.timestamp, timestamp, base)));
        ParseAggregate(amf, lim, m1, p, off + 11 + size + 4, Some(base), o)
  }
}
