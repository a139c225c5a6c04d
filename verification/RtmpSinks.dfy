/** The event sink, the track bindings and the parse loops, updating in place. */
module RtmpSinks {
  import opened Octets
  import opened ErtmpTypes
  import opened RtmpMedia

  type Done = Result<(), MediaError>

  /** A method's outcome and the state it leaves are what the specification says. */
  ghost predicate Follows(p: Parsed, r: Done, after: Media) {
    (r.Ok? <==> p.Ok?) && (r.Ok? ==> after == p.value) && (r.Err? ==> r.error == p.error)
  }

  ghost predicate FollowsSink(p: Result<Sink, MediaError>, r: Done, after: Sink) {
    (r.Ok? <==> p.Ok?) && (r.Ok? ==> after == p.value) && (r.Err? ==> r.error == p.error)
  }

  class EventSink {
    var events: seq<Event>
    var contexts: seq<Option<Context>>
    var payloadBytes: nat
    const limits: Limits

    constructor (limits: Limits)
      ensures View() == EMPTY_SINK && this.limits == limits
    {
      events, contexts, payloadBytes := [], [], 0;
      this.limits := limits;
    }

    ghost function View(): Sink
      reads this
    {
      Sink(events, contexts, payloadBytes)
    }

    /** Account for one more event before it is appended. */
    method Claim(bytes: nat) returns (r: Done)
      modifies this`payloadBytes
      ensures r == (if |events| >= EventCapacity(limits) then Err(EventLimit)
                    else if old(payloadBytes) + bytes + CONTEXT_BYTES > limits.maxTotalEventPayloadBytes then Err(PayloadLimit)
                    else Ok(()))
      ensures payloadBytes == old(payloadBytes) + if r.Ok? then bytes + CONTEXT_BYTES else 0
    {
      if |events| >= EventCapacity(limits) {
        return Err(EventLimit);
      }
      var next := payloadBytes + bytes + CONTEXT_BYTES;
      if next > limits.maxTotalEventPayloadBytes {
        return Err(PayloadLimit);
      }
      payloadBytes := next;
      r := Ok(());
    }

    method Append(e: Event, context: Option<Context>) returns (r: Done)
      modifies this
      ensures FollowsSink(Push(limits, old(View()), e, context), r, View())
    {
      r := Claim(EventSize(e));
      if r.Ok? {
        events := events + [e];
        contexts := contexts + [context];
      }
    }
  }

  class TrackBindings {
    const video: array<Option<u32>>
    const audio: array<Option<u32>>

    ghost predicate Valid() {
      video.Length == 256 && audio.Length == 256 && video != audio
    }

    constructor ()
      ensures Valid() && fresh(video) && fresh(audio) && View() == UNBOUND
    {
      video := new Option<u32>[256](i => None);
      audio := new Option<u32>[256](i => None);
      new;
      assert video[..] == seq(256, i => None) && audio[..] == seq(256, i => None);
    }

    ghost function View(): BoundTracks
      requires Valid()
      reads video, audio
    {
      Bindings(video[..], audio[..])
    }

    method Bind(t: Track, msid: Option<u32>) returns (r: Done)
      requires Valid()
      modifies video, audio
      ensures var p := Associate(old(View()), t, msid);
              (r.Ok? <==> p.Ok?) && (r.Ok? ==> View() == p.value) && (r.Err? ==> r.error == p.error)
    {
      if msid.None? {
        return Ok(());
      }
      var id := msid.value;
      if id == 0 {
        return Err(ControlStreamZero);
      }
      var slots := if t.media.Video? then video else audio;
      if slots[t.id].Some? {
        return if slots[t.id].value != id then Err(StreamConflict) else Ok(());
      }
      slots[t.id] := Some(id);
      r := Ok(());
    }
  }

  ghost function MediaView(b: TrackBindings, s: EventSink): Media
    requires b.Valid()
    reads b.video, b.audio, s
  {
    Media(b.View(), s.View())
  }

  // ---- One packet ----------------------------------------------------------------------------------

  method PushPairsInto(s: EventSink, pairs: seq<Pair>, t: Track, o: Origin, context: Context) returns (r: Done)
    modifies s
    ensures FollowsSink(PushPairs(s.limits, old(s.View()), pairs, t, o, context), r, s.View())
  {
    hide Push;
    for i := 0 to |pairs|
      invariant PushPairs(s.limits, old(s.View()), pairs, t, o, context) == PushPairs(s.limits, s.View(), pairs[i..], t, o, context)
    {
      assert pairs[i..][1..] == pairs[i + 1..];
      r := s.Append(Metadata(t, o.csid, o.timestamp, pairs[i].name, pairs[i].value), Some(context));
      if r.Err? {
        return;
      }
    }
    r := Ok(());
  }

  method EmitVideoInto(amf: Amf, s: EventSink, packet: nat, codec: Codec, body: seq<byte>, offset: int, t: Track, o: Origin, multitrack: bool)
    returns (r: Done)
    modifies s
    ensures FollowsSink(EmitVideo(amf, s.limits, old(s.View()), packet, codec, body, offset, t, o, multitrack), r, s.View())
  {
    hide Push, PushPairs, FourCc;
    var context := Context(o.msid, Some(FourCc(codec)), multitrack);
    match packet {
      case 0 =>
        if body == [] { return Err(BadPacket); }
        r := s.Append(CodecConfig(t, o.csid, body), Some(context));
      case 1 =>
        if body == [] { return Err(BadPacket); }
        r := s.Append(Frame(t, o.csid, o.timestamp, offset, body), Some(context));
      case 2 =>
        r := if body != [] then Err(BadPacket) else Ok(());
      case 3 =>
        if !codec.HasOffset() || body == [] { return Err(BadPacket); }
        r := s.Append(Frame(t, o.csid, o.timestamp, 0, body), Some(context));
      case 4 =>
        r := PushPairsInto(s, amf(body).pairs, t, o, context);
        if r.Ok? && !amf(body).complete { return Err(BadPacket); }
      case 5 =>
        if codec != Av1 || body == [] { return Err(BadPacket); }
        r := s.Append(CodecConfig(t, o.csid, body), Some(context));
      case _ =>
        r := Err(BadPacket);
    }
  }

  method EmitAudioInto(s: EventSink, packet: nat, codec: Codec, body: seq<byte>, t: Track, o: Origin, multitrack: bool) returns (r: Done)
    modifies s
    ensures FollowsSink(EmitAudio(s.limits, old(s.View()), packet, codec, body, t, o, multitrack), r, s.View())
  {
    hide Push, FourCc, MultichannelOk;
    var context := Context(o.msid, Some(FourCc(codec)), multitrack);
    match packet {
      case 0 =>
        if codec.Ac3? || codec.Eac3? || codec.Mp3? || (body == [] && codec != Opus) { return Err(BadPacket); }
        r := s.Append(CodecConfig(t, o.csid, body), Some(context));
      case 1 =>
        if body == [] { return Err(BadPacket); }
        r := s.Append(Frame(t, o.csid, o.timestamp, 0, body), Some(context));
      case 2 =>
        r := if body != [] then Err(BadPacket) else Ok(());
      case 4 =>
        r := if MultichannelOk(body) then Ok(()) else Err(BadPacket);
      case _ =>
        r := Err(BadPacket);
    }
  }

  method PacketInto(amf: Amf, b: TrackBindings, s: EventSink, packet: nat, codec: Codec, body: seq<byte>, t: Track, o: Origin, multitrack: bool)
    returns (r: Done)
    requires b.Valid()
    modifies b.video, b.audio, s
    ensures Follows(Packet(amf, s.limits, old(MediaView(b, s)), packet, codec, body, t, o, multitrack), r, MediaView(b, s))
  {
    hide Associate, EmitVideo, EmitAudio;
    if t.media.Video? {
      var split := SplitVideoBody(packet, codec, body);
      if split.Err? {
        return Err(split.error);
      }
      r := b.Bind(t, o.msid);
      if r.Ok? {
        r := EmitVideoInto(amf, s, packet, codec, split.value.1, split.value.0, t, o, multitrack);
      }
    } else {
      r := b.Bind(t, o.msid);
      if r.Ok? {
        r := EmitAudioInto(s, packet, codec, body, t, o, multitrack);
      }
    }
  }

  // ---- Loops over a message -----------------------------------------------------------------------------

  method SkipExtensions(p: seq<byte>, first: nat) returns (r: Result<(nat, nat), MediaError>)
    requires p != []
    ensures r == SkipModEx(p, 1, first)
  {
    var off: nat, packet: nat := 1, first;
    while packet == 7
      invariant off <= |p| && SkipModEx(p, 1, first) == SkipModEx(p, off, packet)
      decreases |p| - off
    {
      if off >= |p| {
        return Err(Short);
      }
      var lengthByte := p[off];
      var at, length := off + 1, lengthByte as int + 1;
      if lengthByte == 0xff {
        if |p| - at < 2 {
          return Err(Short);
        }
        length := p[at] as int * 256 + p[at + 1] as int + 1;
        at := at + 2;
      }
      var end := at + length;
      if end >= |p| {
        return Err(Short);
      }
      if length < 3 || U24(p[at..]) >= 1_000_000 || p[end] / 16 != 0 {
        return Err(BadPacket);
      }
      packet := p[end] % 16;
      off := end + 1;
    }
    r := Ok((packet, off));
  }

  ghost function Marked(seen: seq<bool>): set<byte>
    requires |seen| == 256
  {
    set k: byte | seen[k]
  }

  method ReadPartAt(media: MediaType, p: seq<byte>, off: nat, mode: nat, shared: Option<Codec>, seen: array<bool>)
    returns (r: Result<TrackPart, MediaError>)
    requires off < |p| && seen.Length == 256
    modifies seen
    ensures r == ReadPart(media, p, off, mode, shared, old(Marked(seen[..])))
    ensures r.Ok? ==> Marked(seen[..]) == old(Marked(seen[..])) + {r.value.id}
  {
    hide CodecOf, U24;
    var codec, at := shared, off;
    if mode == 2 {
      if |p| - off < 4 {
        return Err(Short);
      }
      codec, at := CodecOf(media, p[off..off + 4]), off + 4;
    }
    if codec.None? {
      return Err(UnsupportedCodec);
    }
    if at >= |p| {
      return Err(Short);
    }
    var id := p[at];
    if seen[id] {
      return Err(RepeatedTrack);
    }
    seen[id] := true;
    var start, size := at + 1, |p| - at - 1;
    if mode != 0 {
      if |p| - start < 3 {
        return Err(Short);
      }
      start, size := at + 4, U24(p[at + 1..]);
    }
    r := if start + size > |p| then Err(Short) else Ok(TrackPart(codec.value, id, start, start + size));
  }

  method TracksInto(amf: Amf, b: TrackBindings, s: EventSink, media: MediaType, p: seq<byte>, start: nat, mode: nat, packet: nat,
                    shared: Option<Codec>, o: Origin) returns (r: Done)
    requires b.Valid() && start <= |p|
    modifies b.video, b.audio, s
    ensures Follows(Tracks(amf, s.limits, old(MediaView(b, s)), media, p, start, mode, packet, shared, {}, o), r, MediaView(b, s))
  {
    hide Packet, ReadPart, Marked;
    var seen := new bool[256](i => false);
    NoneMarked(seen[..]);
    var off, any := start, false;
    while off < |p|
      invariant off <= |p| && fresh(seen) && seen.Length == 256 && any == (Marked(seen[..]) != {})
      invariant Tracks(amf, s.limits, old(MediaView(b, s)), media, p, start, mode, packet, shared, {}, o)
             == Tracks(amf, s.limits, MediaView(b, s), media, p, off, mode, packet, shared, Marked(seen[..]), o)
    {
      var part := ReadPartAt(media, p, off, mode, shared, seen);
      if part.Err? {
        return Err(part.error);
      }
      any := true;
      r := PacketInto(amf, b, s, packet, part.value.codec, p[part.value.start..part.value.end], Track(media, part.value.id), o, true);
      if r.Err? {
        return;
      }
      off := part.value.end;
    }
    r := if any then Ok(()) else Err(BadPacket);
  }

  lemma NoneMarked(seen: seq<bool>)
    requires |seen| == 256 && forall k :: 0 <= k < 256 ==> !seen[k]
    ensures Marked(seen) == {}
  {
  }

  method MultitrackInto(amf: Amf, b: TrackBindings, s: EventSink, media: MediaType, p: seq<byte>, frameType: nat, o: Origin) returns (r: Done)
    requires b.Valid()
    modifies b.video, b.audio, s
    ensures Follows(Multitrack(amf, s.limits, old(MediaView(b, s)), media, p, frameType, o), r, MediaView(b, s))
  {
    hide Tracks, CodecOf, InnerPacket;
    if p == [] {
      return Err(Short);
    }
    var mode, packet := p[0] / 16, p[0] % 16;
    if mode > 2 || !InnerPacket(media, packet) {
      return Err(BadPacket);
    }
    if media.Video? && packet != 4 && !(1 <= frameType <= 2) {
      return Err(BadPacket);
    }
    if mode == 2 {
      r := TracksInto(amf, b, s, media, p, 1, mode, packet, None, o);
    } else {
      if |p| < 5 {
        return Err(Short);
      }
      var shared := CodecOf(media, p[1..5]);
      if shared.None? {
        return Err(UnsupportedCodec);
      }
      r := TracksInto(amf, b, s, media, p, 5, mode, packet, shared, o);
    }
  }

  // ---- Messages -------------------------------------------------------------------------------------------

  method LegacyVideoInto(amf: Amf, b: TrackBindings, s: EventSink, p: seq<byte>, o: Origin) returns (r: Done)
    requires b.Valid() && p != [] && p[0] < 128
    modifies b.video, b.audio, s
    ensures Follows(LegacyVideo(amf, s.limits, old(MediaView(b, s)), p, o), r, MediaView(b, s))
  {
    hide EmitVideo, Associate, SignedU24;
    var frameType := p[0] / 16;
    if frameType == 5 {
      return if |p[1..]| != 1 || p[1..][0] > 1 then Err(BadPacket) else Ok(());
    }
    if !(1 <= frameType <= 2) {
      return Err(BadPacket);
    }
    if p[0] % 16 != 7 {
      return Err(UnsupportedCodec);
    }
    if |p| < 5 {
      return Err(Short);
    }
    if p[1] > 2 {
      return Err(BadPacket);
    }
    r := b.Bind(Track(Video, 0), o.msid);
    if r.Ok? {
      r := EmitVideoInto(amf, s, p[1], Avc, p[5..], SignedU24(p[2..5]), Track(Video, 0), o, false);
    }
  }

  method ParseVideoInto(amf: Amf, b: TrackBindings, s: EventSink, p: seq<byte>, o: Origin) returns (r: Done)
    requires b.Valid()
    modifies b.video, b.audio, s
    ensures Follows(ParseVideo(amf, s.limits, old(MediaView(b, s)), p, o), r, MediaView(b, s))
  {
    hide LegacyVideo, Multitrack, Packet, SkipModEx, VideoCodec;
    if p == [] {
      return Err(Short);
    }
    if p[0] < 128 {
      r := LegacyVideoInto(amf, b, s, p, o);
      return;
    }
    var frameType := p[0] / 16 % 8;
    var skipped := SkipExtensions(p, p[0] % 16);
    if skipped.Err? {
      return Err(skipped.error);
    }
    var (packet, off) := skipped.value;
    if packet == 6 {
      r := MultitrackInto(amf, b, s, Video, p[off..], frameType, o);
      return;
    }
    if packet != 4 {
      if frameType == 5 {
        return if |p[off..]| != 1 || p[off..][0] > 1 then Err(BadPacket) else Ok(());
      }
      if !(1 <= frameType <= 2) {
        return Err(BadPacket);
      }
    }
    if packet >= 7 {
      return Err(BadPacket);
    }
    if |p| - off < 4 {
      return Err(Short);
    }
    var codec := VideoCodec(p[off..off + 4]);
    if codec.None? {
      return Err(UnsupportedCodec);
    }
    r := PacketInto(amf, b, s, packet, codec.value, p[off + 4..], Track(Video, 0), o, false);
  }

  method LegacyAudioInto(b: TrackBindings, s: EventSink, p: seq<byte>, o: Origin) returns (r: Done)
    requires b.Valid() && p != []
    modifies b.video, b.audio, s
    ensures Follows(LegacyAudio(s.limits, old(MediaView(b, s)), p, o), r, MediaView(b, s))
  {
    hide EmitAudio, Associate, Push;
    var format, t := p[0] / 16, Track(Audio, 0);
    r := b.Bind(t, o.msid);
    if r.Err? {
      return;
    }
    if format == 10 {
      if |p| < 2 {
        return Err(Short);
      }
      if p[1] > 1 {
        return Err(BadPacket);
      }
      r := EmitAudioInto(s, p[1], Aac, p[2..], t, o, false);
      return;
    }
    if format in {7, 8, 9, 12, 13, 14, 15} {
      return Err(UnsupportedCodec);
    }
    if |p| == 1 {
      return Err(BadPacket);
    }
    r := s.Append(Frame(t, o.csid, o.timestamp, 0, p[1..]), Some(Context(o.msid, None, false)));
  }

  method ParseAudioInto(amf: Amf, b: TrackBindings, s: EventSink, p: seq<byte>, o: Origin) returns (r: Done)
    requires b.Valid()
    modifies b.video, b.audio, s
    ensures Follows(ParseAudio(amf, s.limits, old(MediaView(b, s)), p, o), r, MediaView(b, s))
  {
    hide LegacyAudio, Multitrack, Packet, SkipModEx, AudioCodec;
    if p == [] {
      return Ok(());
    }
    if p[0] / 16 != 9 {
      r := LegacyAudioInto(b, s, p, o);
      return;
    }
    var skipped := SkipExtensions(p, p[0] % 16);
    if skipped.Err? {
      return Err(skipped.error);
    }
    var (packet, off) := skipped.value;
    if packet == 5 {
      r := MultitrackInto(amf, b, s, Audio, p[off..], 0, o);
      return;
    }
    if packet !in {0, 1, 2, 4} {
      return Err(BadPacket);
    }
    if |p| - off < 4 {
      return Err(Short);
    }
    var codec := AudioCodec(p[off..off + 4]);
    if codec.None? {
      return Err(UnsupportedCodec);
    }
    r := PacketInto(amf, b, s, packet, codec.value, p[off + 4..], Track(Audio, 0), o, false);
  }

  method ParseAggregateInto(amf: Amf, b: TrackBindings, s: EventSink, p: seq<byte>, o: Origin) returns (r: Done)
    requires b.Valid()
    modifies b.video, b.audio, s
    ensures Follows(ParseAggregate(amf, s.limits, old(MediaView(b, s)), p, 0, None, o), r, MediaView(b, s))
  {
    hide ParseAudio, ParseVideo, U24, U32, TagTimestamp, Normalized;
    var off := 0;
    var first := None;
    while off < |p|
      invariant off <= |p|
      invariant ParseAggregate(amf, s.limits, old(MediaView(b, s)), p, 0, None, o)
             == ParseAggregate(amf, s.limits, MediaView(b, s), p, off, first, o)
    {
      if |p| - off < 15 {
        return Err(Short);
      }
      var tag, size := p[off], U24(p[off + 1..]);
      if size > s.limits.maxMessageBytes {
        return Err(TagTooLong);
      }
      var end := off + 11 + size + 4;
      if end > |p| {
        return Err(Short);
      }
      if U32(p[off + 11 + size..]) != 11 + size {
        return Err(BadPacket);
      }
      var timestamp := TagTimestamp(p[off + 4..]);
      if first.None? {
        first := Some(timestamp);
      }
      var inner := o.(timestamp := Normalized(o.timestamp, timestamp, first.value));
      var body := p[off + 11..off + 11 + size];
      if tag == AUDIO_MESSAGE {
        r := ParseAudioInto(amf, b, s, body, inner);
        if r.Err? { return; }
      } else if tag == VIDEO_MESSAGE {
        r := ParseVideoInto(amf, b, s, body, inner);
        if r.Err? { return; }
      } else if tag != AMF3_SCRIPT_DATA && tag != AMF0_SCRIPT_DATA {
        return Err(BadPacket);
      }
      off := end;
    }
    r := Ok(());
  }
}
