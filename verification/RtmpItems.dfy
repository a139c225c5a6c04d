/** What one media packet says: the events it stands for, and when they can be taken. */
module RtmpItems {
  import opened Octets
  import opened ErtmpTypes
  import opened RtmpMedia

  datatype Item = Item(event: Event, context: Context)

  // ---- Taking items into a sink -----------------------------------------------------------------

  /** The length of a metadata name as it stands on the wire. */
  function NameOctets(n: PairName): nat {
    match n case C2paManifest => |"c2paManifest"| case C2paSegmentInfo => |"c2paSegmentInfo"| case OtherName(text) => |text|
  }

  /** Octets an event keeps of its message. */
  function Held(e: Event): nat {
    match e
    case CodecConfig(_, _, payload) => |payload|
    case Frame(_, _, _, _, data) => |data|
    case Metadata(_, _, _, name, value) => NameOctets(name) + |value|
    case Reconnect => 0
  }

  /** What items add to the payload account: what they keep, and 16 octets for each. */
  function Total(items: seq<Item>): nat {
    if items == [] then 0 else Held(items[0].event) + 16 + Total(items[1..])
  }

  function Events(items: seq<Item>): seq<Event> {
    seq(|items|, i requires 0 <= i < |items| => items[i].event)
  }

  function Contexts(items: seq<Item>): seq<Option<Context>> {
    seq(|items|, i requires 0 <= i < |items| => Some(items[i].context))
  }

  /** There is room: for the events under both limits, and for what they keep. */
  predicate Fits(lim: Limits, s: Sink, items: seq<Item>) {
    items != [] ==>
      && |s.events| + |items| <= lim.maxEvents && |s.events| + |items| <= 1_000_000
      && s.payloadBytes + Total(items) <= lim.maxTotalEventPayloadBytes
  }

  function With(s: Sink, items: seq<Item>): Sink {
    Sink(s.events + Events(items), s.contexts + Contexts(items), s.payloadBytes + Total(items))
  }

  // ---- Binding tracks ---------------------------------------------------------------------------------

  /** The tracks are free or bound to this very message stream, which is not the control stream. */
  ghost predicate Bindable(b: BoundTracks, ts: seq<Track>, msid: Option<u32>) {
    msid.Some? && ts != [] ==> msid.value != 0 && forall t :: t in ts ==> b.Slot(t).None? || b.Slot(t) == msid
  }

  /** Exactly these tracks were bound to the message stream. */
  ghost predicate Binds(b: BoundTracks, r: BoundTracks, ts: seq<Track>, msid: Option<u32>) {
    forall t :: r.Slot(t) == if msid.Some? && t in ts then msid else b.Slot(t)
  }

  /** Parsing has exactly this effect: it succeeds if and only if there is something to say, the tracks can be bound and the
      items fit, and then binds just these tracks and appends just these items. */
  ghost predicate Does(lim: Limits, m: Media, r: Parsed, ts: seq<Track>, items: Option<seq<Item>>, msid: Option<u32>) {
    && (r.Ok? <==> items.Some? && Bindable(m.bindings, ts, msid) && Fits(lim, m.sink, items.value))
    && (r.Ok? ==> r.value.sink == With(m.sink, items.value) && Binds(m.bindings, r.value.bindings, ts, msid))
  }

  lemma PushExact(lim: Limits, s: Sink, e: Event, c: Context)
    ensures var r := Push(lim, s, e, Some(c));
            (r.Ok? <==> Fits(lim, s, [Item(e, c)])) && (r.Ok? ==> r.value == With(s, [Item(e, c)]))
  {
    assert [Item(e, c)][1..] == [];
    assert Total([Item(e, c)]) == Held(e) + 16;
    assert Events([Item(e, c)]) == [e] && Contexts([Item(e, c)]) == [Some(c)];
  }

  lemma AssociateExact(b: BoundTracks, t: Track, msid: Option<u32>)
    ensures var r := Associate(b, t, msid);
            (r.Ok? <==> Bindable(b, [t], msid)) && (r.Ok? ==> Binds(b, r.value, [t], msid))
  {
  }

  lemma BindsNone(b: BoundTracks, msid: Option<u32>)
    ensures Binds(b, b, [], msid)
  {
  }

  lemma NothingDone(lim: Limits, m: Media, msid: Option<u32>)
    ensures Does(lim, m, Ok(m), [], Some([]), msid)
  {
    BindsNone(m.bindings, msid);
    assert With(m.sink, []) == m.sink;
  }

  // ---- One after another ---------------------------------------------------------------------------------

  function Joined(a: Option<seq<Item>>, b: Option<seq<Item>>): Option<seq<Item>> {
    if a.Some? && b.Some? then Some(a.value + b.value) else None
  }

  lemma {:induction false} TotalSum(a: seq<Item>, b: seq<Item>)
    ensures Total(a + b) == Total(a) + Total(b)
  {
    if a == [] {
      assert a + b == b;
    } else {
      assert (a + b)[1..] == a[1..] + b;
      TotalSum(a[1..], b);
    }
  }

  lemma FitsSum(lim: Limits, s: Sink, a: seq<Item>, b: seq<Item>)
    ensures Fits(lim, s, a + b) <==> Fits(lim, s, a) && Fits(lim, With(s, a), b)
    ensures With(s, a + b) == With(With(s, a), b)
  {
    TotalSum(a, b);
    hide Total;
    assert Events(a + b) == Events(a) + Events(b) && Contexts(a + b) == Contexts(a) + Contexts(b);
    if a == [] {
      assert With(s, a) == s by { NoTotal(); }
    }
    assert b == [] ==> a + b == a;
  }

  lemma NoTotal()
    ensures Total([]) == 0
  {
  }

  lemma BindsSum(b: BoundTracks, c: BoundTracks, d: BoundTracks, ts: seq<Track>, us: seq<Track>, msid: Option<u32>)
    requires Binds(b, c, ts, msid)
    ensures Bindable(b, ts, msid) ==> (Bindable(b, ts + us, msid) <==> Bindable(c, us, msid))
    ensures Binds(c, d, us, msid) ==> Binds(b, d, ts + us, msid)
  {
  }

  lemma BindableFirst(b: BoundTracks, ts: seq<Track>, us: seq<Track>, msid: Option<u32>)
    ensures Bindable(b, ts + us, msid) ==> Bindable(b, ts, msid)
  {
  }

  /** Doing one thing and then, if it succeeded, another. */
  lemma DoesBoth(lim: Limits, m: Media, first: Parsed, r: Parsed, ts: seq<Track>, us: seq<Track>, a: Option<seq<Item>>, b: Option<seq<Item>>, msid: Option<u32>)
    requires Does(lim, m, first, ts, a, msid)
    requires if first.Ok? then Does(lim, first.value, r, us, b, msid) else r.Err?
    ensures Does(lim, m, r, ts + us, Joined(a, b), msid)
  {
    hide Fits, With, Bindable, Binds;
    BindableFirst(m.bindings, ts, us, msid);
    if a.Some? && b.Some? {
      FitsSum(lim, m.sink, a.value, b.value);
    }
    if first.Ok? {
      BindsSum(m.bindings, first.value.bindings, if r.Ok? then r.value.bindings else first.value.bindings, ts, us, msid);
    }
  }

  // ---- What a packet says -------------------------------------------------------------------------------------

  function One(e: Event, c: Context): Option<seq<Item>> {
    Some([Item(e, c)])
  }

  function PairItems(pairs: seq<Pair>, t: Track, o: Origin, c: Context): seq<Item> {
    seq(|pairs|, i requires 0 <= i < |pairs| => Item(Metadata(t, o.csid, o.timestamp, pairs[i].name, pairs[i].value), c))
  }

  /** A video packet: configuration (0, and 5 for AV1), coded frame with (1) or without (3) a composition offset before it,
      end of sequence (2), metadata (4). */
  function VideoItems(amf: Amf, packet: nat, codec: Codec, body: seq<byte>, t: Track, o: Origin, multitrack: bool): Option<seq<Item>> {
    var c := Context(o.msid, Some(FourCc(codec)), multitrack);
    if packet == 2 then (if body == [] then Some([]) else None)
    else if packet == 4 then (if amf(body).complete then Some(PairItems(amf(body).pairs, t, o, c)) else None)
    else if packet == 1 && codec in {Avc, Hevc, Vvc} then
      (if |body| > 3 then One(Frame(t, o.csid, o.timestamp, SignedU24(body), body[3..]), c) else None)
    else if body == [] then None
    else if packet == 1 || (packet == 3 && codec in {Avc, Hevc, Vvc}) then One(Frame(t, o.csid, o.timestamp, 0, body), c)
    else if packet == 0 || (packet == 5 && codec == Av1) then One(CodecConfig(t, o.csid, body), c)
    else None
  }

  /** A multichannel configuration: channel order, channel count, and no mapping, four octets of flags or one octet a channel. */
  predicate Multichannel(body: seq<byte>) {
    |body| >= 2 && ((body[0] == 0 && |body| == 2) || (body[0] == 1 && |body| == 6) || (body[0] == 2 && |body| == 2 + body[1] as int))
  }

  /** An audio packet: configuration (0), coded frame (1), end of sequence (2), multichannel configuration (4). */
  function AudioItems(packet: nat, codec: Codec, body: seq<byte>, t: Track, o: Origin, multitrack: bool): Option<seq<Item>> {
    var c := Context(o.msid, Some(FourCc(codec)), multitrack);
    if packet == 2 then (if body == [] then Some([]) else None)
    else if packet == 4 then (if Multichannel(body) then Some([]) else None)
    else if packet == 1 then (if body != [] then One(Frame(t, o.csid, o.timestamp, 0, body), c) else None)
    else if packet == 0 && codec in {Aac, Flac, Opus} && (body != [] || codec == Opus) then One(CodecConfig(t, o.csid, body), c)
    else None
  }

  function ItemsOf(amf: Amf, packet: nat, codec: Codec, body: seq<byte>, t: Track, o: Origin, multitrack: bool): Option<seq<Item>> {
    if t.media.Video? then VideoItems(amf, packet, codec, body, t, o, multitrack) else AudioItems(packet, codec, body, t, o, multitrack)
  }

  /** A codec of this media type. */
  predicate Fitting(media: MediaType, codec: Codec) {
    if media.Video? then codec in {Vp8, Vp9, Av1, Avc, Hevc, Vvc} else codec in {Ac3, Eac3, Opus, Mp3, Flac, Aac}
  }

  // ---- Packets have exactly this effect ---------------------------------------------------------------------------

  ghost predicate Emits(lim: Limits, s: Sink, r: Result<Sink, MediaError>, items: Option<seq<Item>>) {
    && (r.Ok? <==> items.Some? && Fits(lim, s, items.value))
    && (r.Ok? ==> r.value == With(s, items.value))
  }

  lemma {:induction false} PairsExact(lim: Limits, s: Sink, pairs: seq<Pair>, t: Track, o: Origin, c: Context)
    ensures Emits(lim, s, PushPairs(lim, s, pairs, t, o, c), Some(PairItems(pairs, t, o, c)))
    decreases |pairs|
  {
    if pairs == [] {
      assert With(s, []) == s;
    } else {
      hide Fits, With, Push, Total;
      var e := Metadata(t, o.csid, o.timestamp, pairs[0].name, pairs[0].value);
      PushExact(lim, s, e, c);
      var rest := PairItems(pairs[1..], t, o, c);
      assert PairItems(pairs, t, o, c) == [Item(e, c)] + rest;
      FitsSum(lim, s, [Item(e, c)], rest);
      var s1 := Push(lim, s, e, Some(c));
      if s1.Ok? {
        PairsExact(lim, s1.value, pairs[1..], t, o, c);
      }
    }
  }

  /** What emitting a video packet body says, once its composition offset is taken off. */
  function SplitItems(amf: Amf, packet: nat, codec: Codec, body: seq<byte>, offset: int, t: Track, o: Origin, multitrack: bool): Option<seq<Item>> {
    if packet == 1 && body != [] then One(Frame(t, o.csid, o.timestamp, offset, body), Context(o.msid, Some(FourCc(codec)), multitrack))
    else if packet == 1 then None
    else VideoItems(amf, packet, codec, body, t, o, multitrack)
  }

  lemma EmitVideoExact(amf: Amf, lim: Limits, s: Sink, packet: nat, codec: Codec, body: seq<byte>, offset: int, t: Track, o: Origin, multitrack: bool)
    ensures Emits(lim, s, EmitVideo(amf, lim, s, packet, codec, body, offset, t, o, multitrack),
                  SplitItems(amf, packet, codec, body, offset, t, o, multitrack))
  {
    hide Push, PushPairs, Fits, With, FourCc, PairItems;
    var c := Context(o.msid, Some(FourCc(codec)), multitrack);
    match packet
    case 1 => PushExact(lim, s, Frame(t, o.csid, o.timestamp, offset, body), c);
    case 2 => EmptySink(lim, s);
    case 3 => PushExact(lim, s, Frame(t, o.csid, o.timestamp, 0, body), c);
    case 4 => PairsExact(lim, s, amf(body).pairs, t, o, c);
    case _ => PushExact(lim, s, CodecConfig(t, o.csid, body), c);
  }

  lemma EmptySink(lim: Limits, s: Sink)
    ensures Fits(lim, s, []) && With(s, []) == s
  {
  }

  lemma EmitAudioExact(lim: Limits, s: Sink, packet: nat, codec: Codec, body: seq<byte>, t: Track, o: Origin, multitrack: bool)
    requires Fitting(Audio, codec)
    ensures Emits(lim, s, EmitAudio(lim, s, packet, codec, body, t, o, multitrack), AudioItems(packet, codec, body, t, o, multitrack))
  {
    var c := Context(o.msid, Some(FourCc(codec)), multitrack);
    PushExact(lim, s, CodecConfig(t, o.csid, body), c);
    PushExact(lim, s, Frame(t, o.csid, o.timestamp, 0, body), c);
    EmptySink(lim, s);
    assert MultichannelOk(body) <==> Multichannel(body);
    hide Push, Fits, With, FourCc, MultichannelOk, Multichannel;
  }

  lemma SplitMeans(amf: Amf, packet: nat, codec: Codec, body: seq<byte>, t: Track, o: Origin, multitrack: bool)
    requires t.media.Video?
    ensures var split := SplitVideoBody(packet, codec, body);
            ItemsOf(amf, packet, codec, body, t, o, multitrack) ==
            if split.Ok? then SplitItems(amf, packet, codec, split.value.1, split.value.0, t, o, multitrack) else None
  {
    hide SignedU24, FourCc, PairItems;
  }

  /** Binding and then emitting. */
  lemma BindEmitDoes(lim: Limits, m: Media, t: Track, msid: Option<u32>, r: Result<Sink, MediaError>, items: Option<seq<Item>>, p: Parsed)
    requires Emits(lim, m.sink, r, items)
    requires var b := Associate(m.bindings, t, msid);
             if b.Ok? && r.Ok? then p == Ok(Media(b.value, r.value)) else p.Err?
    ensures Does(lim, m, p, [t], items, msid)
  {
    AssociateExact(m.bindings, t, msid);
    hide Associate, Bindable, Binds, Fits, With;
  }

  /** A packet on a track has exactly the effect its items say. */
  lemma PacketExact(amf: Amf, lim: Limits, m: Media, packet: nat, codec: Codec, body: seq<byte>, t: Track, o: Origin, multitrack: bool)
    requires Fitting(t.media, codec)
    ensures Does(lim, m, Packet(amf, lim, m, packet, codec, body, t, o, multitrack), [t], ItemsOf(amf, packet, codec, body, t, o, multitrack), o.msid)
  {
    hide Does, Emits, EmitVideo, EmitAudio, Associate, VideoItems, AudioItems, SplitItems, SplitVideoBody;
    var r := Packet(amf, lim, m, packet, codec, body, t, o, multitrack);
    if t.media.Audio? {
      EmitAudioExact(lim, m.sink, packet, codec, body, t, o, multitrack);
      BindEmitDoes(lim, m, t, o.msid, EmitAudio(lim, m.sink, packet, codec, body, t, o, multitrack),
                   AudioItems(packet, codec, body, t, o, multitrack), r);
    } else {
      SplitMeans(amf, packet, codec, body, t, o, multitrack);
      var split := SplitVideoBody(packet, codec, body);
      if split.Ok? {
        var (offset, coded) := split.value;
        EmitVideoExact(amf, lim, m.sink, packet, codec, coded, offset, t, o, multitrack);
        BindEmitDoes(lim, m, t, o.msid, EmitVideo(amf, lim, m.sink, packet, codec, coded, offset, t, o, multitrack),
                     SplitItems(amf, packet, codec, coded, offset, t, o, multitrack), r);
      } else {
        NothingSaid(lim, m, [t], o.msid, r);
      }
    }
  }

  lemma NothingSaid(lim: Limits, m: Media, ts: seq<Track>, msid: Option<u32>, r: Parsed)
    requires r.Err?
    ensures Does(lim, m, r, ts, None, msid)
  {
  }
}
