/** What holds at every point of decoding any wire, and what each message handed on means. */
module RtmpStanding {
  import opened Octets
  import opened ErtmpTypes
  import opened RtmpMedia
  import opened RtmpChunks
  import opened RtmpBuffers
  import opened RtmpRoundTrip
  import opened RtmpItems
  import opened RtmpForms
  import opened RtmpAggregate
  import opened RtmpConnections
  import opened RtmpDigest

  // ---- Message types -------------------------------------------------------------------------------

  /** Set Chunk Size, Abort, Acknowledgement, User Control, window size and bandwidth, audio and video, data, shared objects
      and commands in both encodings, Aggregate. */
  const DEFINED: set<byte> := {1, 2, 3, 4, 5, 6, 8, 9, 15, 16, 17, 18, 19, 20, 22}

  /** Of these, the ones whose content matters here. */
  const KEPT: set<byte> := {1, 2, 3, 5, 6, 8, 9, 22}

  lemma KindsListed(kind: byte)
    ensures DefinedKind(kind) <==> kind in DEFINED
    ensures Retained(kind) <==> kind in KEPT
  {
  }

  // ---- Every loop head ---------------------------------------------------------------------------------

  /** One chunk stream: a defined message type of acceptable length, and a message in flight that its last header describes. */
  predicate Described(lim: Limits, c: u32, st: ChunkState) {
    && 2 <= c < 65_600 && st.last.length <= lim.maxMessageBytes && st.last.kind in DEFINED
    && (st.assembly.Some? ==>
          var h, a := st.last, st.assembly.value;
          && a.header.timestamp == h.timestamp && a.header.length == h.length && a.header.kind == h.kind && a.header.msid == h.msid
          && (a.retain <==> h.kind in KEPT) && (a.retain ==> |a.payload| == a.received) && a.received <= a.header.length)
  }

  /** At a loop head no message in flight is complete. */
  predicate StreamStands(lim: Limits, c: u32, st: ChunkState) {
    Described(lim, c, st) && (st.assembly.Some? ==> st.assembly.value.received < st.assembly.value.header.length)
  }

  ghost predicate Stands(lim: Limits, d: Decoder) {
    && |d.states| <= lim.maxActiveChunkStreams && 1 <= d.chunkSize <= lim.maxChunkSize
    && forall c :: c in d.states ==> StreamStands(lim, c, d.states[c])
  }

  /** A message as it is handed on: complete, of a kept type, off an existing chunk stream. */
  predicate Whole(lim: Limits, m: Message) {
    2 <= m.csid < 65_600 && |m.payload| == m.header.length <= lim.maxMessageBytes && m.header.kind in KEPT
  }

  /** Where it may travel, and what control messages must look like. */
  predicate Admissible(lim: Limits, m: Message) {
    var kind, p := m.header.kind, m.payload;
    && (kind in {1, 2, 3, 5, 6} ==> m.csid == 2 && m.header.msid == 0)
    && (kind in {8, 9, 22} ==> m.csid != 2 && m.header.msid != 0)
    && (kind in {1, 2, 3, 5} ==> |p| == 4) && (kind == 6 ==> |p| == 5 && p[4] <= 2)
    && (kind == 1 ==> 1 <= FromBigEndian(p) < 0x8000_0000 && FromBigEndian(p) <= lim.maxChunkSize)
    && (kind == 2 ==> 2 <= FromBigEndian(p) < 65_600)
  }

  predicate AllWhole(lim: Limits, ms: seq<Message>) {
    forall i :: 0 <= i < |ms| ==> Whole(lim, ms[i])
  }

  predicate AllAdmissible(lim: Limits, ms: seq<Message>) {
    forall i :: 0 <= i < |ms| ==> Admissible(lim, ms[i])
  }

  predicate AllButLast(lim: Limits, ms: seq<Message>) {
    forall i :: 0 <= i < |ms| - 1 ==> Admissible(lim, ms[i])
  }

  ghost predicate NothingInFlight(d: Decoder) {
    forall c :: d.Flight(c).None?
  }

  lemma OneMore(lim: Limits, m: Message, ms: seq<Message>)
    ensures Whole(lim, m) && AllWhole(lim, ms) ==> AllWhole(lim, [m] + ms)
    ensures Admissible(lim, m) && AllAdmissible(lim, ms) ==> AllAdmissible(lim, [m] + ms)
    ensures Admissible(lim, m) && AllButLast(lim, ms) ==> AllButLast(lim, [m] + ms)
  {
    hide Whole, Admissible;
  }

  lemma FourOctets(p: seq<byte>)
    requires |p| == 4
    ensures FromBigEndian(p) == U32(p) && (p[0] < 128 <==> U32(p) < 0x8000_0000)
  {
    var a, b, c := p[..3], p[..2], p[..1];
    assert a[..2] == b && b[..1] == c && c[..0] == [];
    assert FromBigEndian(c[..0]) == 0;
    assert FromBigEndian(c) == p[0];
    assert FromBigEndian(b) == p[0] * 256 + p[1] as int;
    assert FromBigEndian(a) == FromBigEndian(b) * 256 + p[2] as int;
  }

  lemma AdmissibleExact(lim: Limits, m: Message)
    ensures CheckPlacement(m).None? && CheckControl(lim, m).None? <==> Admissible(lim, m)
  {
    if |m.payload| == 4 {
      FourOctets(m.payload);
    }
    hide U32, FromBigEndian;
  }

  lemma PlaceStands(lim: Limits, d: Decoder, head: Head)
    requires Stands(lim, d) && 2 <= head.csid < CSIDS && Place(lim, d, head).Ok?
    ensures var p := Place(lim, d, head).value;
            && p.chunkSize == d.chunkSize && |p.states| <= lim.maxActiveChunkStreams
            && p.Flight(head.csid).Some? && Described(lim, head.csid, p.states[head.csid])
            && (forall c :: c in p.states && c != head.csid ==> StreamStands(lim, c, p.states[c]))
  {
    KindsListed(head.header.kind);
    hide DefinedKind, Retained;
    var p := Place(lim, d, head).value;
    assert p.states.Keys == d.states.Keys + {head.csid};
  }

  lemma AbsorbStands(lim: Limits, alloc: Allocator, d: Decoder, csid: u32, b: seq<byte>, off: nat)
    requires off <= |b| && d.Flight(csid).Some? && Described(lim, csid, d.states[csid]) && Absorb(lim, alloc, d, csid, b, off).Ok?
    requires |d.states| <= lim.maxActiveChunkStreams && 1 <= d.chunkSize <= lim.maxChunkSize
    requires forall c :: c in d.states && c != csid ==> StreamStands(lim, c, d.states[c])
    ensures var taken := Absorb(lim, alloc, d, csid, b, off).value;
            Stands(lim, taken.decoder) && (taken.completed.Some? ==> Whole(lim, taken.completed.value))
  {
    hide Reserve;
    var taken := Absorb(lim, alloc, d, csid, b, off).value;
    assert taken.decoder.states.Keys == d.states.Keys;
  }

  lemma ChunkStands(lim: Limits, alloc: Allocator, d: Decoder, b: seq<byte>, off: nat)
    requires off <= |b| && InFlightOk(d) && Stands(lim, d) && Chunk(lim, alloc, d, b, off).Ok?
    ensures var taken := Chunk(lim, alloc, d, b, off).value;
            Stands(lim, taken.decoder) && (taken.completed.Some? ==> Whole(lim, taken.completed.value))
  {
    hide ReadHead, Place, Absorb, Stands, Whole, Described, StreamStands;
    var head := ReadHead(d, b, off).value;
    PlaceStands(lim, d, head);
    StandsSize(lim, d);
    AbsorbStands(lim, alloc, Place(lim, d, head).value, head.csid, b, head.next);
  }

  lemma StandsSize(lim: Limits, d: Decoder)
    requires Stands(lim, d)
    ensures 1 <= d.chunkSize <= lim.maxChunkSize
  {
  }

  /** Only an admissible message changes anything, and what it does keeps all this. */
  lemma HandleStands(amf: Amf, lim: Limits, w: World, m: Message)
    requires Stands(lim, w.decoder) && Handle(amf, lim, w, m).Ok?
    ensures Admissible(lim, m) && Stands(lim, Handle(amf, lim, w, m).value.decoder)
  {
    AdmissibleExact(lim, m);
    hide ParseMessage, U32, FromBigEndian;
    var d' := Handle(amf, lim, w, m).value.decoder;
    if |m.payload| == 4 {
      FourOctets(m.payload);
    }
    assert d'.states.Keys == w.decoder.states.Keys;
  }

  /** Over any wire, accepted or not, at every loop head: no more chunk streams than allowed, none above the last id, each with
      a defined type, an acceptable length and the message its header describes; the chunk size within its limit. Every message
      handed on is whole and of a kept type, every one but a refused last is admissible, and an accepted wire ends with nothing in
      flight. */
  lemma {:induction false} DecodeStands(amf: Amf, lim: Limits, alloc: Allocator, w: World, b: seq<byte>, off: nat)
    requires off <= |b| && InFlightOk(w.decoder) && Stands(lim, w.decoder)
    ensures forall i :: 0 <= i < |LoopHeads(amf, lim, alloc, w, b, off)| ==> Stands(lim, LoopHeads(amf, lim, alloc, w, b, off)[i])
    ensures AllWhole(lim, HandedOn(amf, lim, alloc, w, b, off)) && AllButLast(lim, HandedOn(amf, lim, alloc, w, b, off))
    ensures var r := DecodeFrom(amf, lim, alloc, w, b, off);
            r.Ok? ==> AllAdmissible(lim, HandedOn(amf, lim, alloc, w, b, off)) && NothingInFlight(r.value.decoder)
    decreases |b| - off
  {
    hide Chunk, Interpret, Apply, Stands, InFlightOk, Whole, Admissible;
    if off < |b| && Chunk(lim, alloc, w.decoder, b, off).Ok? {
      var taken := Chunk(lim, alloc, w.decoder, b, off).value;
      ChunkKeepsInFlight(lim, alloc, w.decoder, b, off);
      ChunkStands(lim, alloc, w.decoder, b, off);
      var w1 := World(taken.decoder, w.media);
      if taken.completed.None? {
        DecodeStands(amf, lim, alloc, w1, b, taken.next);
        hide AllWhole, AllAdmissible, AllButLast, NothingInFlight;
      } else {
        var m := taken.completed.value;
        var w2 := Handle(amf, lim, w1, m);
        if w2.Ok? {
          HandledInFlight(amf, lim, w1, m);
          HandleStands(amf, lim, w1, m);
          DecodeStands(amf, lim, alloc, w2.value, b, taken.next);
          OneMore(lim, m, HandedOn(amf, lim, alloc, w2.value, b, taken.next));
          hide AllWhole, AllAdmissible, AllButLast, NothingInFlight;
        }
      }
    }
  }

  lemma HandledInFlight(amf: Amf, lim: Limits, w: World, m: Message)
    requires InFlightOk(w.decoder) && Handle(amf, lim, w, m).Ok?
    ensures Apply(w.decoder, m).Ok? && InFlightOk(Handle(amf, lim, w, m).value.decoder)
  {
    hide Interpret, InFlightOk, Apply;
    ApplyInFlight(w.decoder, m);
  }

  lemma ConnectionStands(amf: Amf, lim: Limits, alloc: Allocator, chunkSize: nat, media: Media, b: seq<byte>)
    requires 1 <= chunkSize <= lim.maxChunkSize
    ensures var w := World(Fresh(chunkSize), media);
            var heads, on := LoopHeads(amf, lim, alloc, w, b, 0), HandedOn(amf, lim, alloc, w, b, 0);
            && (forall i :: 0 <= i < |heads| ==> Stands(lim, heads[i]))
            && AllWhole(lim, on) && AllButLast(lim, on)
  {
    var w := World(Fresh(chunkSize), media);
    assert Stands(lim, w.decoder);
    hide Stands, LoopHeads, HandedOn, DecodeFrom, AllWhole, AllAdmissible, AllButLast;
    DecodeStands(amf, lim, alloc, w, b, 0);
  }

  // ---- Aggregates are tags ---------------------------------------------------------------------------------

  lemma U32Written(p: seq<byte>, at: nat)
    requires at + 4 <= |p|
    ensures p[at..at + 4] == BigEndian(4, U32(p[at..]))
  {
    var b := p[at..];
    var high := U24(b);
    assert U32(b) == high * 256 + b[3] as int;
    assert U32(b) / 256 == high && U32(b) % 256 == b[3];
    U24Digits(b);
    Digits4(U32(b));
    hide U24, U32;
    assert p[at..at + 4] == [b[0], b[1], b[2], b[3]];
  }

  lemma TagTimestampParts(p: seq<byte>)
    requires |p| >= 4
    ensures TagTimestamp(p) % 0x100_0000 == U24(p) && TagTimestamp(p) / 0x100_0000 == p[3]
  {
    hide U24;
  }

  lemma TagWritten(p: seq<byte>, off: nat) returns (t: Tag)
    requires off + 15 <= |p| && off + 15 + U24(p[off + 1..]) <= |p| && U32(p[off + 11 + U24(p[off + 1..])..]) == 11 + U24(p[off + 1..])
    ensures |t.body| == U24(p[off + 1..]) && t.kind == p[off] && t.streamId < 0x100_0000
    ensures p[off..off + 15 + |t.body|] == TagOctets(t)
  {
    hide U24, U32, BigEndian, TagTimestamp, TagHead;
    var size := U24(p[off + 1..]);
    var end := off + 11 + size;
    t := Tag(p[off], TagTimestamp(p[off + 4..]), U24(p[off + 8..]), p[off + 11..end]);
    U24Written(p, off + 1);
    U24Written(p, off + 4);
    U24Written(p, off + 8);
    TagTimestampParts(p[off + 4..]);
    HeadWritten(p, off, t);
    U32Written(p, end);
    TailWritten(p, off, end);
  }

  lemma TailWritten(p: seq<byte>, off: nat, end: nat)
    requires off + 11 <= end && end + 4 <= |p|
    ensures p[off..end + 4] == p[off..off + 11] + p[off + 11..end] + p[end..end + 4]
  {
  }

  lemma HeadWritten(p: seq<byte>, off: nat, t: Tag)
    requires off + 11 <= |p| && |t.body| < 0x100_0000 && t.streamId < 0x100_0000 && p[off] == t.kind
    requires p[off + 1..off + 4] == BigEndian(3, |t.body|) && p[off + 4..off + 7] == BigEndian(3, t.timestamp % 0x100_0000)
    requires p[off + 7] == t.timestamp / 0x100_0000 && p[off + 8..off + 11] == BigEndian(3, t.streamId)
    ensures p[off..off + 11] == TagHead(t)
  {
    hide BigEndian;
    assert p[off..off + 11] == [p[off]] + p[off + 1..off + 4] + p[off + 4..off + 7] + [p[off + 7]] + p[off + 8..off + 11];
  }

  /** Whatever is accepted as an Aggregate is a sequence of written tags. */
  lemma {:induction false} AggregateIsTags(amf: Amf, lim: Limits, media: Media, p: seq<byte>, off: nat, first: Option<u32>, o: Origin)
    returns (tags: seq<Tag>)
    requires off <= |p| && ParseAggregate(amf, lim, media, p, off, first, o).Ok?
    ensures (forall t :: t in tags ==> TagOk(lim, t)) && p[off..] == AggregateOctets(lim, tags)
    decreases |p| - off
  {
    hide ParseAudio, ParseVideo, U24, U32, TagTimestamp, Normalized, TagOctets;
    if off == |p| {
      tags := [];
    } else {
      var t := TagWritten(p, off);
      var end := off + 15 + |t.body|;
      var timestamp := TagTimestamp(p[off + 4..]);
      var base := if first.Some? then first.value else timestamp;
      var m1 := ParseTag(amf, lim, media, p[off], p[off + 11..off + 11 + |t.body|], o.(timestamp := Normalized(o.timestamp, timestamp, base))).value;
      var rest := AggregateIsTags(amf, lim, m1, p, end, Some(base), o);
      tags := [t] + rest;
      TagsCons(lim, t, rest);
      hide ParseAggregate, AggregateOctets;
      Cut(p, off, end, |p|);
      assert p[off..] == p[off..|p|] && p[end..] == p[end..|p|];
    }
  }

  lemma TagsCons(lim: Limits, t: Tag, rest: seq<Tag>)
    requires TagOk(lim, t) && forall x :: x in rest ==> TagOk(lim, x)
    ensures (forall x :: x in [t] + rest ==> TagOk(lim, x)) && AggregateOctets(lim, [t] + rest) == TagOctets(t) + AggregateOctets(lim, rest)
  {
    assert ([t] + rest)[1..] == rest;
    hide TagOctets;
  }

  // ---- What a message means -----------------------------------------------------------------------------------

  function MediaOf(kind: byte): MediaType {
    if kind == 8 then Audio else Video
  }

  /** Where the events of a message come from: its own timestamp, chunk stream and message stream. */
  function OriginOf(m: Message): Origin {
    Origin(m.header.timestamp, m.csid, Some(m.header.msid))
  }

  /** The payload is this form, which says something that can be taken. */
  ghost predicate Takes(amf: Amf, lim: Limits, media: Media, m: Message, f: Form) {
    var kind, o := MediaOf(m.header.kind), OriginOf(m);
    && FormOk(kind, f) && Written(kind, f) == m.payload && Says(amf, kind, f, o).Some?
    && Bindable(media.bindings, About(kind, f), o.msid) && Fits(lim, media.sink, Says(amf, kind, f, o).value)
  }

  /** Exactly what the form says was appended, and exactly its tracks were bound. */
  ghost predicate Gives(amf: Amf, media: Media, m: Message, f: Form, r: Media) {
    var kind, o := MediaOf(m.header.kind), OriginOf(m);
    && Says(amf, kind, f, o).Some? && r.sink == With(media.sink, Says(amf, kind, f, o).value)
    && Binds(media.bindings, r.bindings, About(kind, f), o.msid)
  }

  /** The payload is these tags. */
  ghost predicate Tagged(lim: Limits, m: Message, tags: seq<Tag>) {
    (forall t :: t in tags ==> TagOk(lim, t)) && AggregateOctets(lim, tags) == m.payload
  }

  /** A message is interpreted exactly if it is admissible and, for media, its payload is a written form that can be taken. Audio and
      video give what their form says, an Aggregate is a sequence of tags, and nothing else says anything. */
  lemma InterpretExact(amf: Amf, lim: Limits, media: Media, m: Message)
    ensures var r := Interpret(amf, lim, media, m);
            && (r.Ok? ==> Admissible(lim, m))
            && (m.header.kind !in {8, 9, 22} && Admissible(lim, m) ==> r == Ok(media))
            && (m.header.kind in {8, 9} && Admissible(lim, m) ==> (r.Ok? <==> exists f :: Takes(amf, lim, media, m, f)))
            && (m.header.kind in {8, 9} && r.Ok? ==>
                  forall f :: FormOk(MediaOf(m.header.kind), f) && Written(MediaOf(m.header.kind), f) == m.payload ==> Gives(amf, media, m, f, r.value))
            && (m.header.kind == 22 && r.Ok? ==> exists tags :: Tagged(lim, m, tags))
  {
    AdmissibleExact(lim, m);
    hide Admissible, CheckPlacement, CheckControl, ParseAudio, ParseVideo, ParseAggregate, FormOk, Written, Says, About, Bindable, Binds, Fits, With;
    if m.header.kind in {8, 9} {
      var kind, o := MediaOf(m.header.kind), OriginOf(m);
      ParseExact(amf, lim, media, kind, m.payload, o);
      if Parse(amf, lim, media, kind, m.payload, o).Ok? {
        var f :| FormOk(kind, f) && Written(kind, f) == m.payload && Says(amf, kind, f, o).Some? &&
          Bindable(media.bindings, About(kind, f), o.msid) && Fits(lim, media.sink, Says(amf, kind, f, o).value);
        assert Takes(amf, lim, media, m, f);
      }
    } else if m.header.kind == 22 && Interpret(amf, lim, media, m).Ok? {
      var tags := AggregateIsTags(amf, lim, media, m.payload, 0, None, OriginOf(m));
      assert m.payload[0..] == m.payload;
      assert Tagged(lim, m, tags);
    }
  }
}
