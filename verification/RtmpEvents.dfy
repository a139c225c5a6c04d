/** What every event stream taken from a wire satisfies. */
module RtmpEvents {
  import opened Octets
  import opened ErtmpTypes
  import opened RtmpMedia

  // ---- The sink ----------------------------------------------------------------------------

  /** Octets all events hold together with their contexts. */
  function Weight(events: seq<Event>): nat {
    if events == [] then 0 else Weight(events[..|events| - 1]) + EventSize(events[|events| - 1]) + CONTEXT_BYTES
  }

  /** A context is absent exactly at reconnects; composition offsets fit three octets. */
  predicate EventOk(e: Event, c: Option<Context>) {
    (c.None? <==> e.Reconnect?) && (e.Frame? ==> -0x80_0000 <= e.offset < 0x80_0000)
  }

  /** Events and contexts pair up, the account is exact, and both limits hold. */
  ghost predicate SinkOk(lim: Limits, s: Sink) {
    && |s.events| == |s.contexts| <= EventCapacity(lim)
    && s.payloadBytes == Weight(s.events) <= lim.maxTotalEventPayloadBytes
    && forall i :: 0 <= i < |s.events| ==> EventOk(s.events[i], s.contexts[i])
  }

  lemma PushOk(lim: Limits, s: Sink, e: Event, c: Option<Context>)
    requires SinkOk(lim, s) && EventOk(e, c)
    ensures var r := Push(lim, s, e, c);
            r.Ok? ==> SinkOk(lim, r.value) && r.value.events == s.events + [e] && r.value.contexts == s.contexts + [c]
  {
    assert (s.events + [e])[..|s.events|] == s.events;
  }

  // ---- What parsing a message may do ---------------------------------------------------------

  /** An event of a media message: on its chunk stream, in its message stream, of a track bound to that stream. */
  ghost predicate Belongs(e: Event, c: Option<Context>, b: BoundTracks, o: Origin) {
    && !e.Reconnect? && e.csid == o.csid && c.Some? && c.value.msid == o.msid
    && (o.msid.Some? ==> o.msid.value != 0 && b.Slot(e.track) == o.msid)
  }

  /** Nothing already emitted or bound changes. */
  ghost predicate Keeps(m: Media, r: Media) {
    && |m.sink.events| <= |r.sink.events| && |m.sink.contexts| <= |r.sink.contexts|
    && (forall i :: 0 <= i < |m.sink.events| ==> r.sink.events[i] == m.sink.events[i])
    && (forall i :: 0 <= i < |m.sink.contexts| ==> r.sink.contexts[i] == m.sink.contexts[i])
    && forall t :: m.bindings.Slot(t).Some? ==> r.bindings.Slot(t) == m.bindings.Slot(t)
  }

  ghost predicate Grows(m: Media, r: Media, o: Origin) {
    && Keeps(m, r)
    && |r.sink.events| == |r.sink.contexts|
    && forall i :: |m.sink.events| <= i < |r.sink.events| ==> Belongs(r.sink.events[i], r.sink.contexts[i], r.bindings, o)
  }

  ghost predicate Sound(lim: Limits, m: Media, p: Parsed, o: Origin) {
    p.Ok? ==> SinkOk(lim, p.value.sink) && Grows(m, p.value, o)
  }

  ghost predicate SameStream(o: Origin, q: Origin) {
    o.csid == q.csid && o.msid == q.msid
  }

  lemma GrowsAgain(m: Media, n: Media, r: Media, o: Origin, q: Origin)
    requires Grows(m, n, o) && Grows(n, r, q) && SameStream(o, q)
    ensures Grows(m, r, o)
  {
    forall i | |m.sink.events| <= i < |r.sink.events| ensures Belongs(r.sink.events[i], r.sink.contexts[i], r.bindings, o) {
      if i < |n.sink.events| {
        assert Belongs(n.sink.events[i], n.sink.contexts[i], n.bindings, o);
      }
    }
  }

  lemma GrowsNot(lim: Limits, m: Media, o: Origin)
    requires SinkOk(lim, m.sink)
    ensures Grows(m, m, o)
  {
    hide Weight;
  }

  /** The track is bound to the message's stream, and no other binding changes. */
  lemma AssociateBinds(b: BoundTracks, t: Track, msid: Option<u32>)
    requires Associate(b, t, msid).Ok?
    ensures var r := Associate(b, t, msid).value;
            && (msid.Some? ==> msid.value != 0 && r.Slot(t) == msid)
            && (forall x :: x != t ==> r.Slot(x) == b.Slot(x))
            && (b.Slot(t).Some? ==> r.Slot(t) == b.Slot(t))
  {
  }

  ghost predicate Ready(b: BoundTracks, t: Track, o: Origin) {
    o.msid.Some? ==> o.msid.value != 0 && b.Slot(t) == o.msid
  }

  ghost predicate Emitted(lim: Limits, b: BoundTracks, s: Sink, r: Result<Sink, MediaError>, o: Origin) {
    r.Ok? ==> SinkOk(lim, r.value) && Grows(Media(b, s), Media(b, r.value), o)
  }

  lemma PushSound(lim: Limits, b: BoundTracks, s: Sink, e: Event, c: Context, o: Origin)
    requires SinkOk(lim, s) && !e.Reconnect? && Ready(b, e.track, o) && e.csid == o.csid && c.msid == o.msid
    requires e.Frame? ==> -0x80_0000 <= e.offset < 0x80_0000
    ensures Emitted(lim, b, s, Push(lim, s, e, Some(c)), o)
  {
    hide Push, Weight;
    PushOk(lim, s, e, Some(c));
  }

  lemma {:induction false} PairsSound(lim: Limits, b: BoundTracks, s: Sink, pairs: seq<Pair>, t: Track, o: Origin, c: Context)
    requires SinkOk(lim, s) && Ready(b, t, o) && c.msid == o.msid
    ensures Emitted(lim, b, s, PushPairs(lim, s, pairs, t, o, c), o)
    decreases |pairs|
  {
    hide SinkOk, Grows, Push, Ready;
    if pairs == [] {
      GrowsNot(lim, Media(b, s), o);
    } else {
      var e := Metadata(t, o.csid, o.timestamp, pairs[0].name, pairs[0].value);
      PushSound(lim, b, s, e, c, o);
      var s1 := Push(lim, s, e, Some(c));
      if s1.Ok? {
        PairsSound(lim, b, s1.value, pairs[1..], t, o, c);
        var last := PushPairs(lim, s1.value, pairs[1..], t, o, c);
        if last.Ok? {
          GrowsAgain(Media(b, s), Media(b, s1.value), Media(b, last.value), o, o);
        }
      }
    }
  }

  lemma EmitVideoSound(amf: Amf, lim: Limits, b: BoundTracks, s: Sink, packet: nat, codec: Codec, body: seq<byte>, offset: int, t: Track,
                       o: Origin, multitrack: bool)
    requires SinkOk(lim, s) && Ready(b, t, o) && -0x80_0000 <= offset < 0x80_0000
    ensures Emitted(lim, b, s, EmitVideo(amf, lim, s, packet, codec, body, offset, t, o, multitrack), o)
  {
    hide SinkOk, Grows, Push, PushPairs, FourCc;
    var c := Context(o.msid, Some(FourCc(codec)), multitrack);
    GrowsNot(lim, Media(b, s), o);
    PushSound(lim, b, s, CodecConfig(t, o.csid, body), c, o);
    PushSound(lim, b, s, Frame(t, o.csid, o.timestamp, offset, body), c, o);
    PushSound(lim, b, s, Frame(t, o.csid, o.timestamp, 0, body), c, o);
    PairsSound(lim, b, s, amf(body).pairs, t, o, c);
  }

  lemma EmitAudioSound(lim: Limits, b: BoundTracks, s: Sink, packet: nat, codec: Codec, body: seq<byte>, t: Track, o: Origin, multitrack: bool)
    requires SinkOk(lim, s) && Ready(b, t, o)
    ensures Emitted(lim, b, s, EmitAudio(lim, s, packet, codec, body, t, o, multitrack), o)
  {
    hide SinkOk, Grows, Push, FourCc, MultichannelOk;
    var c := Context(o.msid, Some(FourCc(codec)), multitrack);
    GrowsNot(lim, Media(b, s), o);
    PushSound(lim, b, s, CodecConfig(t, o.csid, body), c, o);
    PushSound(lim, b, s, Frame(t, o.csid, o.timestamp, 0, body), c, o);
  }

  /** Binding a track and then emitting its events. */
  lemma BindThenEmit(lim: Limits, m: Media, t: Track, r: Result<Sink, MediaError>, o: Origin)
    requires SinkOk(lim, m.sink) && Associate(m.bindings, t, o.msid).Ok?
    requires var b := Associate(m.bindings, t, o.msid).value; Emitted(lim, b, m.sink, r, o)
    ensures r.Ok? ==> Sound(lim, m, Ok(Media(Associate(m.bindings, t, o.msid).value, r.value)), o)
  {
    AssociateBinds(m.bindings, t, o.msid);
    hide Associate, SinkOk;
  }

  lemma PacketSound(amf: Amf, lim: Limits, m: Media, packet: nat, codec: Codec, body: seq<byte>, t: Track, o: Origin, multitrack: bool)
    requires SinkOk(lim, m.sink)
    ensures Sound(lim, m, Packet(amf, lim, m, packet, codec, body, t, o, multitrack), o)
  {
    hide SinkOk, Grows, EmitVideo, EmitAudio, Associate, Emitted;
    var b := Associate(m.bindings, t, o.msid);
    if b.Ok? {
      AssociateBinds(m.bindings, t, o.msid);
      if t.media.Audio? {
        EmitAudioSound(lim, b.value, m.sink, packet, codec, body, t, o, multitrack);
        BindThenEmit(lim, m, t, EmitAudio(lim, m.sink, packet, codec, body, t, o, multitrack), o);
      } else if SplitVideoBody(packet, codec, body).Ok? {
        var (offset, coded) := SplitVideoBody(packet, codec, body).value;
        EmitVideoSound(amf, lim, b.value, m.sink, packet, codec, coded, offset, t, o, multitrack);
        BindThenEmit(lim, m, t, EmitVideo(amf, lim, m.sink, packet, codec, coded, offset, t, o, multitrack), o);
      }
    }
  }

  lemma {:induction false} TracksSound(amf: Amf, lim: Limits, m: Media, media: MediaType, p: seq<byte>, off: nat, mode: nat, packet: nat,
                                       shared: Option<Codec>, seen: set<byte>, o: Origin)
    requires SinkOk(lim, m.sink) && off <= |p|
    ensures Sound(lim, m, Tracks(amf, lim, m, media, p, off, mode, packet, shared, seen, o), o)
    decreases |p| - off
  {
    hide SinkOk, Grows, Packet, ReadPart;
    if off == |p| {
      GrowsNot(lim, m, o);
    } else if Tracks(amf, lim, m, media, p, off, mode, packet, shared, seen, o).Ok? {
      var part := ReadPart(media, p, off, mode, shared, seen).value;
      var body := p[part.start..part.end];
      PacketSound(amf, lim, m, packet, part.codec, body, Track(media, part.id), o, true);
      var m1 := Packet(amf, lim, m, packet, part.codec, body, Track(media, part.id), o, true).value;
      TracksSound(amf, lim, m1, media, p, part.end, mode, packet, shared, seen + {part.id}, o);
      GrowsAgain(m, m1, Tracks(amf, lim, m1, media, p, part.end, mode, packet, shared, seen + {part.id}, o).value, o, o);
    }
  }

  lemma MultitrackSound(amf: Amf, lim: Limits, m: Media, media: MediaType, p: seq<byte>, frameType: nat, o: Origin)
    requires SinkOk(lim, m.sink)
    ensures Sound(lim, m, Multitrack(amf, lim, m, media, p, frameType, o), o)
  {
    hide SinkOk, Grows, Tracks, CodecOf, InnerPacket;
    if p != [] {
      TracksSound(amf, lim, m, media, p, 1, p[0] / 16, p[0] % 16, None, {}, o);
      if |p| >= 5 {
        TracksSound(amf, lim, m, media, p, 5, p[0] / 16, p[0] % 16, CodecOf(media, p[1..5]), {}, o);
      }
    }
  }

  lemma LegacyVideoSound(amf: Amf, lim: Limits, m: Media, p: seq<byte>, o: Origin)
    requires SinkOk(lim, m.sink) && p != [] && p[0] < 128
    ensures Sound(lim, m, LegacyVideo(amf, lim, m, p, o), o)
  {
    hide SinkOk, Grows, EmitVideo, Associate, Emitted, SignedU24;
    GrowsNot(lim, m, o);
    var b := Associate(m.bindings, Track(Video, 0), o.msid);
    if b.Ok? && |p| >= 5 {
      AssociateBinds(m.bindings, Track(Video, 0), o.msid);
      EmitVideoSound(amf, lim, b.value, m.sink, p[1], Avc, p[5..], SignedU24(p[2..5]), Track(Video, 0), o, false);
      BindThenEmit(lim, m, Track(Video, 0), EmitVideo(amf, lim, m.sink, p[1], Avc, p[5..], SignedU24(p[2..5]), Track(Video, 0), o, false), o);
    }
  }

  lemma ParseVideoSound(amf: Amf, lim: Limits, m: Media, p: seq<byte>, o: Origin)
    requires SinkOk(lim, m.sink)
    ensures Sound(lim, m, ParseVideo(amf, lim, m, p, o), o)
  {
    hide SinkOk, Grows, LegacyVideo, Multitrack, Packet, SkipModEx, VideoCodec;
    GrowsNot(lim, m, o);
    if p != [] && p[0] < 128 {
      LegacyVideoSound(amf, lim, m, p, o);
    } else if p != [] && SkipModEx(p, 1, p[0] % 16).Ok? {
      var (packet, off) := SkipModEx(p, 1, p[0] % 16).value;
      MultitrackSound(amf, lim, m, Video, p[off..], p[0] / 16 % 8, o);
      if |p| - off >= 4 && VideoCodec(p[off..off + 4]).Some? {
        PacketSound(amf, lim, m, packet, VideoCodec(p[off..off + 4]).value, p[off + 4..], Track(Video, 0), o, false);
      }
    }
  }

  lemma LegacyAudioSound(lim: Limits, m: Media, p: seq<byte>, o: Origin)
    requires SinkOk(lim, m.sink) && p != []
    ensures Sound(lim, m, LegacyAudio(lim, m, p, o), o)
  {
    hide SinkOk, Grows, EmitAudio, Push, Associate;
    var t := Track(Audio, 0);
    var b := Associate(m.bindings, t, o.msid);
    if b.Ok? {
      AssociateBinds(m.bindings, t, o.msid);
      if |p| >= 2 {
        EmitAudioSound(lim, b.value, m.sink, p[1], Aac, p[2..], t, o, false);
        BindThenEmit(lim, m, t, EmitAudio(lim, m.sink, p[1], Aac, p[2..], t, o, false), o);
      }
      var e, c := Frame(t, o.csid, o.timestamp, 0, p[1..]), Context(o.msid, None, false);
      PushSound(lim, b.value, m.sink, e, c, o);
      BindThenEmit(lim, m, t, Push(lim, m.sink, e, Some(c)), o);
    }
  }

  lemma ParseAudioSound(amf: Amf, lim: Limits, m: Media, p: seq<byte>, o: Origin)
    requires SinkOk(lim, m.sink)
    ensures Sound(lim, m, ParseAudio(amf, lim, m, p, o), o)
  {
    hide SinkOk, Grows, LegacyAudio, Multitrack, Packet, SkipModEx, AudioCodec;
    GrowsNot(lim, m, o);
    if p != [] && p[0] / 16 != 9 {
      LegacyAudioSound(lim, m, p, o);
    } else if p != [] && SkipModEx(p, 1, p[0] % 16).Ok? {
      var (packet, off) := SkipModEx(p, 1, p[0] % 16).value;
      MultitrackSound(amf, lim, m, Audio, p[off..], 0, o);
      if |p| - off >= 4 && AudioCodec(p[off..off + 4]).Some? {
        PacketSound(amf, lim, m, packet, AudioCodec(p[off..off + 4]).value, p[off + 4..], Track(Audio, 0), o, false);
      }
    }
  }

  lemma TagSound(amf: Amf, lim: Limits, m: Media, tag: byte, body: seq<byte>, o: Origin)
    requires SinkOk(lim, m.sink)
    ensures Sound(lim, m, ParseTag(amf, lim, m, tag, body, o), o)
  {
    hide SinkOk, Grows, ParseAudio, ParseVideo;
    GrowsNot(lim, m, o);
    ParseAudioSound(amf, lim, m, body, o);
    ParseVideoSound(amf, lim, m, body, o);
  }

  lemma SoundElsewhen(lim: Limits, m: Media, p: Parsed, o: Origin, q: Origin)
    requires Sound(lim, m, p, q) && SameStream(o, q)
    ensures Sound(lim, m, p, o)
  {
    hide SinkOk, Keeps;
    if p.Ok? {
      var r := p.value;
      forall i | |m.sink.events| <= i < |r.sink.events| ensures Belongs(r.sink.events[i], r.sink.contexts[i], r.bindings, o) {
        assert Belongs(r.sink.events[i], r.sink.contexts[i], r.bindings, q);
      }
    }
  }

  lemma {:induction false} AggregateSound(amf: Amf, lim: Limits, m: Media, p: seq<byte>, off: nat, first: Option<u32>, o: Origin)
    requires SinkOk(lim, m.sink) && off <= |p|
    ensures Sound(lim, m, ParseAggregate(amf, lim, m, p, off, first, o), o)
    decreases |p| - off
  {
    hide SinkOk, Grows, ParseTag, U24, U32, TagTimestamp, Normalized;
    if off == |p| {
      GrowsNot(lim, m, o);
    } else if ParseAggregate(amf, lim, m, p, off, first, o).Ok? {
      var size := U24(p[off + 1..]);
      var timestamp := TagTimestamp(p[off + 4..]);
      var base := if first.Some? then first.value else timestamp;
      var q := o.(timestamp := Normalized(o.timestamp, timestamp, base));
      TagSound(amf, lim, m, p[off], p[off + 11..off + 11 + size], q);
      var m1 := ParseTag(amf, lim, m, p[off], p[off + 11..off + 11 + size], q);
      SoundElsewhen(lim, m, m1, o, q);
      AggregateSound(amf, lim, m1.value, p, off + 11 + size + 4, Some(base), o);
      GrowsAgain(m, m1.value, ParseAggregate(amf, lim, m1.value, p, off + 11 + size + 4, Some(base), o).value, o, o);
    }
  }
}
