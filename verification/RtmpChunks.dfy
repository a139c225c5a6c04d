/** Reassembling interleaved, compressed chunk streams into messages. */
module RtmpChunks {
  import opened Octets
  import opened RtmpMedia

  const SET_CHUNK_SIZE: byte := 1
  const ABORT_MESSAGE: byte := 2
  const ACKNOWLEDGEMENT: byte := 3
  const WINDOW_ACKNOWLEDGEMENT_SIZE: byte := 5
  const SET_PEER_BANDWIDTH: byte := 6
  const CONTROL_CSID: nat := 2

  /** Chunk stream ids are below this. */
  const CSIDS: nat := 65_600

  const EXTENDED: nat := 0xff_ffff

  datatype WireError =
    | InMedia(error: MediaError)
    | Truncated | NoPredecessor | ExtendedChanged | Replaced | MessageTooLong | UndefinedType | TooManyStreams
    | BufferLimit | BufferUnderflow | EndedInMessage | ControlPlacement | MediaPlacement | BadControl | BadChunkSize
    | NotNegotiated | NoConnection | InitialChunkSize | WireLimit

  datatype Header = Header(timestamp: u32, delta: u32, length: nat, kind: byte, msid: u32, extended: bool, absolute: bool)

  /** A message whose chunks are still arriving. Capacity is what its buffer holds in the byte account. */
  datatype Assembly = Assembly(header: Header, payload: seq<byte>, capacity: nat, received: nat, retain: bool)

  datatype ChunkState = ChunkState(last: Header, assembly: Option<Assembly>)

  datatype Decoder = Decoder(chunkSize: nat, states: map<u32, ChunkState>, buffered: nat) {
    function Last(csid: u32): Option<Header> {
      if csid in states then Some(states[csid].last) else None
    }

    function Flight(csid: u32): Option<Assembly> {
      if csid in states then states[csid].assembly else None
    }
  }

  /** A completed message. */
  datatype Message = Message(csid: u32, header: Header, payload: seq<byte>)

  /** How much an allocation at a wire offset really reserves for a requested capacity. */
  type Allocator = (nat, nat) -> nat

  // ---- Headers ---------------------------------------------------------------------------

  /** Chunk format, chunk stream id and length of a basic header. */
  function BasicHeader(b: seq<byte>, off: nat): (r: Result<(nat, nat, nat), WireError>)
    requires off <= |b|
    ensures r.Ok? ==> r.value.0 < 4 && 2 <= r.value.1 < CSIDS && 1 <= r.value.2 && off + r.value.2 <= |b|
  {
    if off == |b| then Err(Truncated)
    else
      var fmt, low := b[off] / 64, b[off] % 64;
      if low == 0 then
        if off + 2 > |b| then Err(Truncated) else Ok((fmt, 64 + b[off + 1] as int, 2))
      else if low == 1 then
        if off + 3 > |b| then Err(Truncated) else Ok((fmt, 64 + b[off + 1] as int + b[off + 2] as int * 256, 3))
      else Ok((fmt, low, 1))
  }

  function HeaderLength(fmt: nat): nat {
    if fmt == 0 then 11 else if fmt == 1 then 7 else if fmt == 2 then 3 else 0
  }

  /** The message header that follows a basic header, decompressed against the previous header of the chunk stream. */
  function MessageHeader(fmt: nat, previous: Option<Header>, b: seq<byte>, off: nat, continuing: bool): (r: Result<Header, WireError>)
    requires fmt < 4 && off <= |b|
    ensures r.Ok? ==> off + HeaderLength(fmt) <= |b|
  {
    if |b| - off < HeaderLength(fmt) then Err(Truncated)
    else if fmt == 0 then
      var raw := U24(b[off..]);
      Ok(Header(raw, raw, U24(b[off + 3..]), b[off + 6], U32Little(b[off + 7..]), raw == EXTENDED, true))
    else if previous.None? then Err(NoPredecessor)
    else
      var prior := previous.value;
      if fmt == 1 then
        var delta := U24(b[off..]);
        Ok(Header((prior.timestamp + delta) % TWO32, delta, U24(b[off + 3..]), b[off + 6], prior.msid, delta == EXTENDED, false))
      else if fmt == 2 then
        var delta := U24(b[off..]);
        Ok(prior.(timestamp := (prior.timestamp + delta) % TWO32, delta := delta, extended := delta == EXTENDED, absolute := false))
      else if continuing then Ok(prior)
      else Ok(prior.(timestamp := (prior.timestamp + prior.delta) % TWO32, absolute := false))
  }

  /** Replace the 24-bit timestamp field by the 32-bit extended one, or check that a type-3 chunk repeats it. */
  function ApplyExtended(fmt: nat, previous: Option<Header>, h: Header, extended: u32, continuing: bool): Result<Header, WireError> {
    if fmt == 0 then Ok(h.(timestamp := extended, delta := extended))
    else if fmt == 1 || fmt == 2 then
      Ok(h.(delta := extended, timestamp := if previous.Some? then (previous.value.timestamp + extended) % TWO32 else extended))
    else if extended != (if continuing && h.absolute then h.timestamp else h.delta) then Err(ExtendedChanged)
    else Ok(h)
  }

  datatype Head = Head(csid: u32, fmt: nat, header: Header, next: nat)

  /** Everything of a chunk before its payload. */
  function ReadHead(d: Decoder, b: seq<byte>, off: nat): (r: Result<Head, WireError>)
    requires off <= |b|
    ensures r.Ok? ==> r.value.fmt < 4 && 2 <= r.value.csid < CSIDS && off < r.value.next <= |b|
  {
    var (fmt, csid, basic) :- BasicHeader(b, off);
    var continuing := d.Flight(csid).Some?;
    var header :- MessageHeader(fmt, d.Last(csid), b, off + basic, continuing);
    var at := off + basic + HeaderLength(fmt);
    if !header.extended then Ok(Head(csid, fmt, header, at))
    else if |b| - at < 4 then Err(Truncated)
    else
      var full :- ApplyExtended(fmt, d.Last(csid), header, U32(b[at..]), continuing);
      Ok(Head(csid, fmt, full, at + 4))
  }

  // ---- Placing a chunk in its chunk stream ----------------------------------------------------

  predicate DefinedKind(kind: byte) {
    1 <= kind <= 6 || kind == AUDIO_MESSAGE || kind == VIDEO_MESSAGE || 15 <= kind <= 20 || kind == AGGREGATE_MESSAGE
  }

  /** Messages whose payload the decoder keeps. */
  predicate Retained(kind: byte) {
    1 <= kind <= 3 || 5 <= kind <= 6 || kind == AUDIO_MESSAGE || kind == VIDEO_MESSAGE || kind == AGGREGATE_MESSAGE
  }

  /** A continuation must describe the message it continues. */
  predicate SameMessage(h: Header, active: Header) {
    h.timestamp == active.timestamp && h.length == active.length && h.kind == active.kind && h.msid == active.msid
  }

  function Place(lim: Limits, d: Decoder, head: Head): Result<Decoder, WireError> {
    var flight := d.Flight(head.csid);
    if flight.Some? && !SameMessage(head.header, flight.value.header) then Err(Replaced)
    else if head.header.length > lim.maxMessageBytes then Err(MessageTooLong)
    else if !DefinedKind(head.header.kind) then Err(UndefinedType)
    else if head.csid !in d.states && |d.states| >= lim.maxActiveChunkStreams then Err(TooManyStreams)
    else
      var assembly := if flight.Some? then flight.value else Assembly(head.header, [], 0, 0, Retained(head.header.kind));
      Ok(d.(states := d.states[head.csid := ChunkState(head.header, Some(assembly))]))
  }

  // ---- Taking the payload -----------------------------------------------------------------------

  /** Capacity to ask for so that `required` octets fit: at least double, never beyond the message. */
  function TargetCapacity(a: Assembly, required: nat, take: nat): nat {
    Min(Max(required, Max(a.capacity * 2, take)), a.header.length)
  }

  /** Capacity and byte account after making room for `take` more octets. The account cannot drop below zero here
      because no capacity exceeds its message. */
  function Reserve(lim: Limits, alloc: Allocator, a: Assembly, buffered: nat, take: nat, off: nat): Result<(nat, nat), WireError> {
    var required := |a.payload| + take;
    if required <= a.capacity then Ok((a.capacity, buffered))
    else
      var target := TargetCapacity(a, required, take);
      if buffered + target - a.capacity > lim.maxBufferedMessageBytes then Err(BufferLimit)
      else
        var granted := Max(target, alloc(off, target));
        var next := buffered + granted - a.capacity;
        if next < 0 || next > lim.maxBufferedMessageBytes then Err(BufferLimit) else Ok((granted, next))
  }

  datatype Taken = Taken(decoder: Decoder, next: nat, completed: Option<Message>)

  function Absorb(lim: Limits, alloc: Allocator, d: Decoder, csid: u32, b: seq<byte>, off: nat): (r: Result<Taken, WireError>)
    requires off <= |b| && d.Flight(csid).Some? && d.Flight(csid).value.received <= d.Flight(csid).value.header.length
    ensures r.Ok? ==> off <= r.value.next <= |b|
  {
    var a := d.Flight(csid).value;
    var take := Min(a.header.length - a.received, d.chunkSize);
    if |b| - off < take then Err(Truncated)
    else
      var (capacity, buffered) :- (if a.retain then Reserve(lim, alloc, a, d.buffered, take, off) else Ok((a.capacity, d.buffered)));
      var payload := if a.retain then a.payload + b[off..off + take] else a.payload;
      var a1 := a.(payload := payload, capacity := capacity, received := a.received + take);
      if a1.received < a.header.length then
        Ok(Taken(d.(states := d.states[csid := d.states[csid].(assembly := Some(a1))], buffered := buffered), off + take, None))
      else if buffered < capacity then Err(BufferUnderflow)
      else
        Ok(Taken(d.(states := d.states[csid := d.states[csid].(assembly := None)], buffered := buffered - capacity),
                 off + take, if a.retain then Some(Message(csid, a.header, payload)) else None))
  }

  /** One chunk. */
  function Chunk(lim: Limits, alloc: Allocator, d: Decoder, b: seq<byte>, off: nat): (r: Result<Taken, WireError>)
    requires off <= |b| && InFlightOk(d)
    ensures r.Ok? ==> off < r.value.next <= |b|
  {
    var head :- ReadHead(d, b, off);
    var placed :- Place(lim, d, head);
    Absorb(lim, alloc, placed, head.csid, b, head.next)
  }

  /** No assembly has received more than its message. */
  predicate InFlightOk(d: Decoder) {
    forall c :: c in d.states && d.states[c].assembly.Some? ==>
      d.states[c].assembly.value.received <= d.states[c].assembly.value.header.length
  }

  lemma ChunkKeepsInFlight(lim: Limits, alloc: Allocator, d: Decoder, b: seq<byte>, off: nat)
    requires off <= |b| && InFlightOk(d) && Chunk(lim, alloc, d, b, off).Ok?
    ensures InFlightOk(Chunk(lim, alloc, d, b, off).value.decoder)
  {
    hide ReadHead, Reserve, DefinedKind;
  }

  // ---- Messages -----------------------------------------------------------------------------------

  predicate Control(kind: byte) {
    1 <= kind <= 3 || 5 <= kind <= 6
  }

  predicate MediaKind(kind: byte) {
    kind == AUDIO_MESSAGE || kind == VIDEO_MESSAGE || kind == AGGREGATE_MESSAGE
  }

  /** Protocol control travels on chunk stream 2 and message stream 0, media never does. */
  function CheckPlacement(m: Message): Option<WireError> {
    if Control(m.header.kind) && (m.csid != CONTROL_CSID || m.header.msid != 0) then Some(ControlPlacement)
    else if MediaKind(m.header.kind) && (m.csid == CONTROL_CSID || m.header.msid == 0) then Some(MediaPlacement)
    else None
  }

  function CheckControl(lim: Limits, m: Message): Option<WireError> {
    var kind, p := m.header.kind, m.payload;
    if kind == SET_CHUNK_SIZE then
      if |p| != 4 || p[0] >= 128 then Some(BadControl)
      else if U32(p) == 0 || U32(p) > lim.maxChunkSize then Some(BadChunkSize)
      else None
    else if kind == ABORT_MESSAGE then
      if |p| != 4 || !(2 <= U32(p) < CSIDS) then Some(BadControl) else None
    else if kind == ACKNOWLEDGEMENT || kind == WINDOW_ACKNOWLEDGEMENT_SIZE then
      if |p| != 4 then Some(BadControl) else None
    else if kind == SET_PEER_BANDWIDTH then
      if |p| != 5 || p[4] > 2 then Some(BadControl) else None
    else None
  }

  /** What a well-formed control message does to the decoder. */
  function Apply(d: Decoder, m: Message): Result<Decoder, WireError> {
    if m.header.kind == SET_CHUNK_SIZE && |m.payload| == 4 then Ok(d.(chunkSize := U32(m.payload)))
    else if m.header.kind == ABORT_MESSAGE && |m.payload| == 4 then
      var target := U32(m.payload);
      if d.Flight(target).None? then Ok(d)
      else if d.buffered < d.Flight(target).value.capacity then Err(BufferUnderflow)
      else Ok(d.(states := d.states[target := d.states[target].(assembly := None)],
                 buffered := d.buffered - d.Flight(target).value.capacity))
    else Ok(d)
  }

  lemma ApplyInFlight(d: Decoder, m: Message)
    requires InFlightOk(d) && Apply(d, m).Ok?
    ensures InFlightOk(Apply(d, m).value)
  {
  }

  /** The media packets of a message. */
  function ParseMessage(amf: Amf, lim: Limits, media: Media, m: Message): Parsed {
    var o := Origin(m.header.timestamp, m.csid, Some(m.header.msid));
    if m.header.kind == AUDIO_MESSAGE then ParseAudio(amf, lim, media, m.payload, o)
    else if m.header.kind == VIDEO_MESSAGE then ParseVideo(amf, lim, media, m.payload, o)
    else if m.header.kind == AGGREGATE_MESSAGE then ParseAggregate(amf, lim, media, m.payload, 0, None, o)
    else Ok(media)
  }

  /** What a message means to the events: control messages mean nothing, media messages are parsed. */
  function Interpret(amf: Amf, lim: Limits, media: Media, m: Message): Result<Media, WireError> {
    var placement := CheckPlacement(m);
    if placement.Some? then Err(placement.value)
    else
      var control := CheckControl(lim, m);
      if control.Some? then Err(control.value)
      else
        var parsed := ParseMessage(amf, lim, media, m);
        if parsed.Err? then Err(InMedia(parsed.error)) else Ok(parsed.value)
  }

  datatype World = World(decoder: Decoder, media: Media)

  function Handle(amf: Amf, lim: Limits, w: World, m: Message): Result<World, WireError>
  {
    var media :- Interpret(amf, lim, w.media, m);
    var d :- Apply(w.decoder, m);
    Ok(World(d, media))
  }

  // ---- A whole connection --------------------------------------------------------------------------

  predicate Quiet(d: Decoder) {
    forall c :: c in d.states ==> d.states[c].assembly.None?
  }

  function DecodeFrom(amf: Amf, lim: Limits, alloc: Allocator, w: World, b: seq<byte>, off: nat): Result<World, WireError>
    requires off <= |b| && InFlightOk(w.decoder)
    decreases |b| - off
  {
    if off == |b| then (if Quiet(w.decoder) then Ok(w) else Err(EndedInMessage))
    else
      var taken :- Chunk(lim, alloc, w.decoder, b, off);
      ChunkKeepsInFlight(lim, alloc, w.decoder, b, off);
      var w1 := World(taken.decoder, w.media);
      var w2 :- (if taken.completed.Some? then Handle(amf, lim, w1, taken.completed.value) else Ok(w1));
      DecodeFrom(amf, lim, alloc, w2, b, taken.next)
  }

  /** The messages a run of the decoder hands on, in order, a refused last one included. */
  function HandedOn(amf: Amf, lim: Limits, alloc: Allocator, w: World, b: seq<byte>, off: nat): seq<Message>
    requires off <= |b| && InFlightOk(w.decoder)
    decreases |b| - off
  {
    if off == |b| || Chunk(lim, alloc, w.decoder, b, off).Err? then []
    else
      var taken := Chunk(lim, alloc, w.decoder, b, off).value;
      ChunkKeepsInFlight(lim, alloc, w.decoder, b, off);
      var w1 := World(taken.decoder, w.media);
      if taken.completed.None? then HandedOn(amf, lim, alloc, w1, b, taken.next)
      else
        var w2 := Handle(amf, lim, w1, taken.completed.value);
        [taken.completed.value] +
        if w2.Err? then []
        else
          ApplyInFlight(w1.decoder, taken.completed.value);
          HandedOn(amf, lim, alloc, w2.value, b, taken.next)
  }

  function Fresh(chunkSize: nat): Decoder {
    Decoder(chunkSize, map[], 0)
  }
}
