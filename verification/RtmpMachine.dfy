/** The chunk decoder, updating its chunk streams, byte account and sink in place. */
module RtmpMachine {
  import opened Octets
  import opened RtmpMedia
  import opened RtmpChunks
  import opened RtmpBuffers
  import opened RtmpSinks
  import opened RtmpConnections

  class RtmpDecoder {
    var chunkSize: nat
    var states: map<u32, ChunkState>
    var buffered: nat
    const bindings: TrackBindings
    const limits: Limits

    ghost function View(): Decoder
      reads this
    {
      Decoder(chunkSize, states, buffered)
    }

    constructor (chunkSize: nat, limits: Limits)
      ensures View() == Fresh(chunkSize) && this.limits == limits
      ensures bindings.Valid() && fresh(bindings.video) && fresh(bindings.audio) && bindings.View() == UNBOUND
    {
      this.chunkSize, states, buffered := chunkSize, map[], 0;
      bindings := new TrackBindings();
      this.limits := limits;
    }

    /** Enter a chunk's head into its chunk stream, starting a message unless one is in flight. */
    method Enter(head: Head) returns (r: Result<(), WireError>)
      modifies this`states
      ensures var p := Place(limits, old(View()), head);
              (r.Ok? <==> p.Ok?) && (r.Ok? ==> View() == p.value) && (r.Err? ==> r.error == p.error)
    {
      hide DefinedKind, Retained;
      var csid, header := head.csid, head.header;
      var continuing := csid in states && states[csid].assembly.Some?;
      if continuing {
        if !SameMessage(header, states[csid].assembly.value.header) {
          return Err(Replaced);
        }
        states := states[csid := states[csid].(last := header)];
      }
      if header.length > limits.maxMessageBytes {
        return Err(MessageTooLong);
      }
      if !DefinedKind(header.kind) {
        return Err(UndefinedType);
      }
      if csid !in states && |states| >= limits.maxActiveChunkStreams {
        return Err(TooManyStreams);
      }
      if !continuing {
        states := states[csid := ChunkState(header, Some(Assembly(header, [], 0, 0, Retained(header.kind))))];
      }
      r := Ok(());
    }

    /** Make room for `take` more octets of a retained message. */
    method Grow(alloc: Allocator, a: Assembly, take: nat, off: nat) returns (r: Result<nat, WireError>)
      modifies this`buffered
      ensures var p := Reserve(limits, alloc, a, old(buffered), take, off);
              (r.Ok? <==> p.Ok?) && (r.Ok? ==> (r.value, buffered) == p.value) && (r.Err? ==> r.error == p.error)
    {
      var required := |a.payload| + take;
      if required <= a.capacity {
        return Ok(a.capacity);
      }
      var target := TargetCapacity(a, required, take);
      if buffered + target - a.capacity > limits.maxBufferedMessageBytes {
        return Err(BufferLimit);
      }
      var granted := Max(target, alloc(off, target));
      var next := buffered + granted - a.capacity;
      if next < 0 || next > limits.maxBufferedMessageBytes {
        return Err(BufferLimit);
      }
      buffered := next;
      r := Ok(granted);
    }

    /** Take a chunk's payload, completing its message when nothing is missing. */
    method Take(alloc: Allocator, csid: u32, b: seq<byte>, off: nat) returns (r: Result<(nat, Option<Message>), WireError>)
      requires off <= |b| && View().Flight(csid).Some?
      requires View().Flight(csid).value.received <= View().Flight(csid).value.header.length
      modifies this`states, this`buffered
      ensures var p := Absorb(limits, alloc, old(View()), csid, b, off);
              && (r.Ok? <==> p.Ok?) && (r.Err? ==> r.error == p.error)
              && (r.Ok? ==> View() == p.value.decoder && r.value == (p.value.next, p.value.completed))
    {
      hide Reserve;
      var a := states[csid].assembly.value;
      var take := Min(a.header.length - a.received, chunkSize);
      if |b| - off < take {
        return Err(Truncated);
      }
      if a.retain {
        var grown := Grow(alloc, a, take, off);
        if grown.Err? {
          return Err(grown.error);
        }
        a := a.(capacity := grown.value, payload := a.payload + b[off..off + take]);
      }
      a := a.(received := a.received + take);
      if a.received < a.header.length {
        states := states[csid := states[csid].(assembly := Some(a))];
        return Ok((off + take, None));
      }
      states := states[csid := states[csid].(assembly := None)];
      if buffered < a.capacity {
        return Err(BufferUnderflow);
      }
      buffered := buffered - a.capacity;
      r := Ok((off + take, if a.retain then Some(Message(csid, a.header, a.payload)) else None));
    }

    /** One chunk of the wire. */
    method ReadChunk(alloc: Allocator, b: seq<byte>, off: nat) returns (r: Result<(nat, Option<Message>), WireError>)
      requires off <= |b| && InFlightOk(View())
      modifies this`states, this`buffered
      ensures var p := Chunk(limits, alloc, old(View()), b, off);
              && (r.Ok? <==> p.Ok?) && (r.Err? ==> r.error == p.error)
              && (r.Ok? ==> View() == p.value.decoder && r.value == (p.value.next, p.value.completed))
    {
      hide BasicHeader, MessageHeader, ApplyExtended, Absorb, DefinedKind, Retained;
      var first :- BasicHeader(b, off);
      var (fmt, csid, basic) := first;
      var previous := if csid in states then Some(states[csid].last) else None;
      var continuing := csid in states && states[csid].assembly.Some?;
      var header :- MessageHeader(fmt, previous, b, off + basic, continuing);
      var at := off + basic + HeaderLength(fmt);
      if header.extended {
        if |b| - at < 4 {
          return Err(Truncated);
        }
        header :- ApplyExtended(fmt, previous, header, U32(b[at..]), continuing);
        at := at + 4;
      }
      assert ReadHead(old(View()), b, off) == Ok(Head(csid, fmt, header, at));
      var _ :- Enter(Head(csid, fmt, header, at));
      r := Take(alloc, csid, b, at);
    }

    /** Obey a completed control message. */
    method Obey(m: Message) returns (r: Result<(), WireError>)
      modifies this
      ensures var p := Apply(old(View()), m);
              (r.Ok? <==> p.Ok?) && (r.Ok? ==> View() == p.value) && (r.Err? ==> r.error == p.error)
    {
      hide U32;
      if m.header.kind == SET_CHUNK_SIZE && |m.payload| == 4 {
        chunkSize := U32(m.payload);
      } else if m.header.kind == ABORT_MESSAGE && |m.payload| == 4 {
        var target := U32(m.payload);
        if target in states && states[target].assembly.Some? {
          var dropped := states[target].assembly.value;
          states := states[target := states[target].(assembly := None)];
          if buffered < dropped.capacity {
            return Err(BufferUnderflow);
          }
          buffered := buffered - dropped.capacity;
        }
      }
      r := Ok(());
    }

    /** Hand a completed message on: to this decoder if it is control, to the sink if it is media. */
    method Receive(amf: Amf, m: Message, sink: EventSink) returns (r: Result<(), WireError>)
      requires bindings.Valid() && sink.limits == limits
      modifies this, bindings.video, bindings.audio, sink
      ensures var p := Handle(amf, limits, World(old(View()), old(MediaView(bindings, sink))), m);
              && (r.Ok? <==> p.Ok?) && (r.Err? ==> r.error == p.error)
              && (r.Ok? ==> View() == p.value.decoder && MediaView(bindings, sink) == p.value.media)
    {
      hide CheckPlacement, CheckControl, ParseAudio, ParseVideo, ParseAggregate, Apply;
      var placement := CheckPlacement(m);
      if placement.Some? {
        return Err(placement.value);
      }
      var control := CheckControl(limits, m);
      if control.Some? {
        return Err(control.value);
      }
      var o := Origin(m.header.timestamp, m.csid, Some(m.header.msid));
      var parsed := Ok(());
      if m.header.kind == AUDIO_MESSAGE {
        parsed := ParseAudioInto(amf, bindings, sink, m.payload, o);
      } else if m.header.kind == VIDEO_MESSAGE {
        parsed := ParseVideoInto(amf, bindings, sink, m.payload, o);
      } else if m.header.kind == AGGREGATE_MESSAGE {
        parsed := ParseAggregateInto(amf, bindings, sink, m.payload, o);
      }
      if parsed.Err? {
        return Err(InMedia(parsed.error));
      }
      r := Obey(m);
    }

    method Decode(amf: Amf, alloc: Allocator, b: seq<byte>, sink: EventSink) returns (r: Result<(), WireError>)
      requires bindings.Valid() && sink.limits == limits && InFlightOk(View())
      modifies this, bindings.video, bindings.audio, sink
      ensures var p := DecodeFrom(amf, limits, alloc, World(old(View()), old(MediaView(bindings, sink))), b, 0);
              && (r.Ok? <==> p.Ok?) && (r.Err? ==> r.error == p.error)
              && (r.Ok? ==> View() == p.value.decoder && MediaView(bindings, sink) == p.value.media)
    {
      hide Chunk, Interpret, Apply, InFlightOk, BufferInv;
      var off := 0;
      while off < |b|
        invariant off <= |b| && InFlightOk(View())
        invariant BufferInv(limits, old(View())) ==> BufferInv(limits, View())
        invariant DecodeFrom(amf, limits, alloc, World(old(View()), old(MediaView(bindings, sink))), b, 0)
               == DecodeFrom(amf, limits, alloc, World(View(), MediaView(bindings, sink)), b, off)
      {
        ghost var before := View();
        ChunkBounds(limits, alloc, before, b, off);
        if BufferInv(limits, before) {
          ChunkBuffers(limits, alloc, before, b, off);
        }
        var taken := ReadChunk(alloc, b, off);
        if taken.Err? {
          return Err(taken.error);
        }
        off := taken.value.0;
        if taken.value.1.Some? {
          ghost var between := View();
          r := Receive(amf, taken.value.1.value, sink);
          if r.Err? {
            return;
          }
          ApplyInFlight(between, taken.value.1.value);
          if BufferInv(limits, between) {
            ApplyBuffers(limits, between, taken.value.1.value);
          }
        }
      }
      if exists c :: c in states && states[c].assembly.Some? {
        return Err(EndedInMessage);
      }
      r := Ok(());
    }
  }

  lemma ChunkBounds(lim: Limits, alloc: Allocator, d: Decoder, b: seq<byte>, off: nat)
    requires off <= |b| && InFlightOk(d)
    ensures Chunk(lim, alloc, d, b, off).Ok? ==>
              off < Chunk(lim, alloc, d, b, off).value.next <= |b| && InFlightOk(Chunk(lim, alloc, d, b, off).value.decoder)
  {
    hide Chunk;
    if Chunk(lim, alloc, d, b, off).Ok? {
      ChunkKeepsInFlight(lim, alloc, d, b, off);
    }
  }

  /** Check every trace before any is decoded. */
  method CheckAll(lim: Limits, traces: seq<Trace>) returns (r: Option<WireError>)
    ensures r == CheckTraces(lim, traces, 0)
  {
    var total: nat := 0;
    for i := 0 to |traces|
      invariant CheckTraces(lim, traces, 0) == CheckTraces(lim, traces[i..], total)
    {
      var t := traces[i];
      assert traces[i..][1..] == traces[i + 1..];
      if !OffersC2pa(t.clientCaps) || !OffersC2pa(t.serverCaps) || t.objectEncoding != 3 {
        return Some(NotNegotiated);
      }
      if t.chunkSize == 0 || t.chunkSize > lim.maxChunkSize {
        return Some(InitialChunkSize);
      }
      if |t.bytes| > lim.maxWireBytes {
        return Some(WireLimit);
      }
      total := total + |t.bytes|;
      if total > lim.maxTotalWireBytes {
        return Some(WireLimit);
      }
    }
    r := None;
  }

  /** All traces in turn, with a reconnect between them. */
  method InputFromConnections(amf: Amf, lim: Limits, alloc: nat -> Allocator, traces: seq<Trace>) returns (r: Result<Sink, WireError>)
    ensures r == Input(amf, lim, alloc, traces)
  {
    hide DecodeFrom, Push, CheckTraces;
    if traces == [] {
      return Err(NoConnection);
    }
    var refused := CheckAll(lim, traces);
    if refused.Some? {
      return Err(refused.value);
    }
    var sink := new EventSink(lim);
    for i := 0 to |traces|
      invariant sink.limits == lim
      invariant DecodeTraces(amf, lim, alloc, EMPTY_SINK, traces, 0) == DecodeTraces(amf, lim, alloc, sink.View(), traces, i)
    {
      if i != 0 {
        var pushed := sink.Append(RECONNECT, None);
        if pushed.Err? {
          return Err(InMedia(pushed.error));
        }
      }
      var decoder := new RtmpDecoder(traces[i].chunkSize, lim);
      var done := decoder.Decode(amf, alloc(i), traces[i].bytes, sink);
      if done.Err? {
        return Err(done.error);
      }
    }
    r := Ok(Sink(sink.events, sink.contexts, sink.payloadBytes));
  }
}
