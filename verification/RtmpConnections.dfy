/** Several connection traces, one event stream. */
module RtmpConnections {
  import opened Octets
  import opened ErtmpTypes
  import opened RtmpMedia
  import opened RtmpChunks
  import opened RtmpEvents

  /** A post-handshake trace with the negotiation its caller asserts. */
  datatype Trace = Trace(clientCaps: u64, serverCaps: u64, objectEncoding: byte, chunkSize: nat, bytes: seq<byte>)

  predicate OffersC2pa(caps: u64) {
    caps / 16 % 2 == 1
  }

  /** Negotiation and limits of every trace are checked before any is decoded. */
  function CheckTraces(lim: Limits, traces: seq<Trace>, total: nat): Option<WireError>
    decreases |traces|
  {
    if traces == [] then None
    else
      var t := traces[0];
      if !OffersC2pa(t.clientCaps) || !OffersC2pa(t.serverCaps) || t.objectEncoding != 3 then Some(NotNegotiated)
      else if t.chunkSize == 0 || t.chunkSize > lim.maxChunkSize then Some(InitialChunkSize)
      else if |t.bytes| > lim.maxWireBytes || total + |t.bytes| > lim.maxTotalWireBytes then Some(WireLimit)
      else CheckTraces(lim, traces[1..], total + |t.bytes|)
  }

  const RECONNECT := Event.Reconnect

  /** Decode traces from the `index`-th on. Chunk streams and track bindings start anew with each. */
  function DecodeTraces(amf: Amf, lim: Limits, alloc: nat -> Allocator, sink: Sink, traces: seq<Trace>, index: nat): Result<Sink, WireError>
    requires index <= |traces|
    decreases |traces| - index
  {
    if index == |traces| then Ok(sink)
    else
      var start := if index == 0 then Ok(sink) else Push(lim, sink, RECONNECT, None);
      if start.Err? then Err(InMedia(start.error))
      else
        var w :- DecodeFrom(amf, lim, alloc(index), World(Fresh(traces[index].chunkSize), Media(UNBOUND, start.value)), traces[index].bytes, 0);
        DecodeTraces(amf, lim, alloc, w.media.sink, traces, index + 1)
  }

  function Input(amf: Amf, lim: Limits, alloc: nat -> Allocator, traces: seq<Trace>): Result<Sink, WireError> {
    if traces == [] then Err(NoConnection)
    else
      var refused := CheckTraces(lim, traces, 0);
      if refused.Some? then Err(refused.value) else DecodeTraces(amf, lim, alloc, EMPTY_SINK, traces, 0)
  }

  // ---- One connection -------------------------------------------------------------------------------

  /** A media event of a connection: off the control streams, of a track bound to the event's message stream. */
  ghost predicate Addressed(e: Event, c: Option<Context>) {
    !e.Reconnect? && e.csid != CONTROL_CSID && c.Some? && c.value.msid.Some? && c.value.msid.value != 0
  }

  /** Everything emitted since `start` is of the current connection. */
  ghost predicate Bound(m: Media, start: nat) {
    && start <= |m.sink.events| == |m.sink.contexts|
    && forall i :: start <= i < |m.sink.events| ==>
         Addressed(m.sink.events[i], m.sink.contexts[i])
         && m.bindings.Slot(m.sink.events[i].track) == m.sink.contexts[i].value.msid
  }

  ghost predicate Onward(lim: Limits, m: Media, r: Media, start: nat) {
    SinkOk(lim, r.sink) && Keeps(m, r) && Bound(r, start)
  }

  lemma GrowsBound(m: Media, r: Media, o: Origin, start: nat)
    requires Bound(m, start) && Grows(m, r, o) && o.csid != CONTROL_CSID && o.msid.Some?
    ensures Bound(r, start)
  {
    forall i | start <= i < |r.sink.events|
      ensures Addressed(r.sink.events[i], r.sink.contexts[i])
      ensures r.bindings.Slot(r.sink.events[i].track) == r.sink.contexts[i].value.msid
    {
      if i < |m.sink.events| {
        assert Addressed(m.sink.events[i], m.sink.contexts[i]);
      } else {
        assert Belongs(r.sink.events[i], r.sink.contexts[i], r.bindings, o);
      }
    }
  }

  lemma KeepsAll(m: Media)
    ensures Keeps(m, m)
  {
  }

  lemma KeepsAgain(m: Media, n: Media, r: Media)
    requires Keeps(m, n) && Keeps(n, r)
    ensures Keeps(m, r)
  {
  }

  lemma ParseMessageSound(amf: Amf, lim: Limits, media: Media, m: Message)
    requires SinkOk(lim, media.sink) && MediaKind(m.header.kind)
    ensures Sound(lim, media, ParseMessage(amf, lim, media, m), Origin(m.header.timestamp, m.csid, Some(m.header.msid)))
  {
    hide SinkOk, Sound, ParseAudio, ParseVideo, ParseAggregate;
    var o := Origin(m.header.timestamp, m.csid, Some(m.header.msid));
    ParseAudioSound(amf, lim, media, m.payload, o);
    ParseVideoSound(amf, lim, media, m.payload, o);
    AggregateSound(amf, lim, media, m.payload, 0, None, o);
  }

  lemma InterpretSound(amf: Amf, lim: Limits, media: Media, m: Message, start: nat)
    requires SinkOk(lim, media.sink) && Bound(media, start) && Interpret(amf, lim, media, m).Ok?
    ensures Onward(lim, media, Interpret(amf, lim, media, m).value, start)
  {
    hide SinkOk, Bound, CheckControl, ParseAudio, ParseVideo, ParseAggregate, Keeps;
    KeepsAll(media);
    if MediaKind(m.header.kind) {
      ParseMessageSound(amf, lim, media, m);
      var r := Interpret(amf, lim, media, m).value;
      GrowsBound(media, r, Origin(m.header.timestamp, m.csid, Some(m.header.msid)), start);
    }
  }

  lemma {:induction false} DecodeSound(amf: Amf, lim: Limits, alloc: Allocator, w: World, b: seq<byte>, off: nat, start: nat)
    requires off <= |b| && InFlightOk(w.decoder) && SinkOk(lim, w.media.sink) && Bound(w.media, start)
    requires DecodeFrom(amf, lim, alloc, w, b, off).Ok?
    ensures Onward(lim, w.media, DecodeFrom(amf, lim, alloc, w, b, off).value.media, start)
    decreases |b| - off
  {
    hide Chunk, SinkOk, Bound, Interpret, Apply, InFlightOk, Keeps;
    KeepsAll(w.media);
    if off < |b| {
      var taken := Chunk(lim, alloc, w.decoder, b, off).value;
      ChunkKeepsInFlight(lim, alloc, w.decoder, b, off);
      var w1 := World(taken.decoder, w.media);
      if taken.completed.None? {
        DecodeSound(amf, lim, alloc, w1, b, taken.next, start);
      } else {
        var m := taken.completed.value;
        InterpretSound(amf, lim, w.media, m, start);
        var w2 := Handle(amf, lim, w1, m).value;
        ApplyInFlight(w1.decoder, m);
        DecodeSound(amf, lim, alloc, w2, b, taken.next, start);
        KeepsAgain(w.media, w2.media, DecodeFrom(amf, lim, alloc, w2, b, taken.next).value.media);
      }
    }
  }

  // ---- All connections --------------------------------------------------------------------------------

  function Reconnects(events: seq<Event>, n: nat): nat
    requires n <= |events|
  {
    if n == 0 then 0 else Reconnects(events, n - 1) + if events[n - 1].Reconnect? then 1 else 0
  }

  /** Positions of one connection. */
  ghost predicate Together(events: seq<Event>, i: nat, j: nat) {
    i <= j < |events| && forall k :: i <= k <= j ==> !events[k].Reconnect?
  }

  /** Up to `n`, the events of one track in one connection are all of one message stream, and none is misaddressed. */
  ghost predicate OneStreamPerTrack(s: Sink, n: nat) {
    && n <= |s.events| == |s.contexts|
    && (forall i :: 0 <= i < n && !s.events[i].Reconnect? ==> Addressed(s.events[i], s.contexts[i]))
    && forall i, j :: 0 <= i < n && 0 <= j < n && Together(s.events, i, j) && s.events[i].track == s.events[j].track ==>
         s.contexts[i].value.msid == s.contexts[j].value.msid
  }

  lemma {:induction false} NoReconnects(a: seq<Event>, b: seq<Event>, n: nat)
    requires |a| <= n <= |b| && forall i :: 0 <= i < |a| ==> a[i] == b[i]
    requires forall i :: |a| <= i < n ==> !b[i].Reconnect?
    ensures Reconnects(b, n) == Reconnects(a, |a|)
  {
    if n > |a| {
      NoReconnects(a, b, n - 1);
    } else {
      SameReconnects(a, b, n);
    }
  }

  lemma {:induction false} SameReconnects(a: seq<Event>, b: seq<Event>, n: nat)
    requires n <= |a| && n <= |b| && forall i :: 0 <= i < n ==> a[i] == b[i]
    ensures Reconnects(a, n) == Reconnects(b, n)
  {
    if n != 0 {
      SameReconnects(a, b, n - 1);
    }
  }

  lemma StreamAddressed(s: Sink, m: Media, r: Media, start: nat)
    requires OneStreamPerTrack(s, |s.events|) && s == m.sink && start == |s.events|
    requires Keeps(m, r) && Bound(r, start)
    ensures forall i :: 0 <= i < |r.sink.events| && !r.sink.events[i].Reconnect? ==> Addressed(r.sink.events[i], r.sink.contexts[i])
  {
    forall i | 0 <= i < |r.sink.events| && !r.sink.events[i].Reconnect? ensures Addressed(r.sink.events[i], r.sink.contexts[i]) {
      if i < start {
        assert Addressed(s.events[i], s.contexts[i]);
      }
    }
  }

  /** A connection added after a reconnect keeps its tracks apart from those before. */
  lemma StreamJoined(m: Media, r: Media, start: nat, i: nat, j: nat)
    requires OneStreamPerTrack(m.sink, start) && start == |m.sink.events| && Keeps(m, r) && Bound(r, start)
    requires start == 0 || m.sink.events[start - 1].Reconnect?
    requires Together(r.sink.events, i, j) && r.sink.events[i].track == r.sink.events[j].track
    ensures r.sink.contexts[i].value.msid == r.sink.contexts[j].value.msid
  {
    assert start == 0 || r.sink.events[start - 1].Reconnect?;
    if j < start {
      assert Together(m.sink.events, i, j);
    } else if i < start {
      assert false;
    }
  }

  lemma StreamKept(m: Media, r: Media, start: nat)
    requires OneStreamPerTrack(m.sink, start) && start == |m.sink.events| && Keeps(m, r) && Bound(r, start)
    requires start == 0 || m.sink.events[start - 1].Reconnect?
    ensures OneStreamPerTrack(r.sink, |r.sink.events|)
    ensures Reconnects(r.sink.events, |r.sink.events|) == Reconnects(m.sink.events, start)
  {
    StreamAddressed(m.sink, m, r, start);
    forall i, j | 0 <= i < |r.sink.events| && 0 <= j < |r.sink.events| && Together(r.sink.events, i, j)
                  && r.sink.events[i].track == r.sink.events[j].track
      ensures r.sink.contexts[i].value.msid == r.sink.contexts[j].value.msid
    {
      StreamJoined(m, r, start, i, j);
    }
    NoReconnects(m.sink.events, r.sink.events, |r.sink.events|);
  }

  lemma ReconnectKept(s: Sink, r: Sink)
    requires OneStreamPerTrack(s, |s.events|) && r.events == s.events + [RECONNECT] && r.contexts == s.contexts + [None]
    ensures OneStreamPerTrack(r, |r.events|) && Reconnects(r.events, |r.events|) == Reconnects(s.events, |s.events|) + 1
  {
    var n := |s.events|;
    SameReconnects(s.events, r.events, n);
    forall i | 0 <= i < |r.events| && !r.events[i].Reconnect? ensures Addressed(r.events[i], r.contexts[i]) {
      assert Addressed(s.events[i], s.contexts[i]);
    }
    assert r.events[n].Reconnect?;
    forall i, j | 0 <= i < |r.events| && 0 <= j < |r.events| && Together(r.events, i, j) && r.events[i].track == r.events[j].track
      ensures r.contexts[i].value.msid == r.contexts[j].value.msid
    {
      if j == n {
        assert false;
      } else {
        assert Together(s.events, i, j);
      }
    }
  }

  ghost predicate StreamOk(lim: Limits, s: Sink, reconnects: nat) {
    SinkOk(lim, s) && OneStreamPerTrack(s, |s.events|) && Reconnects(s.events, |s.events|) == reconnects
  }

  /** One more trace. */
  lemma TraceSound(amf: Amf, lim: Limits, alloc: Allocator, s: Sink, t: Trace, n: nat)
    requires StreamOk(lim, s, n) && (s.events == [] || s.events[|s.events| - 1].Reconnect?)
    requires DecodeFrom(amf, lim, alloc, World(Fresh(t.chunkSize), Media(UNBOUND, s)), t.bytes, 0).Ok?
    ensures StreamOk(lim, DecodeFrom(amf, lim, alloc, World(Fresh(t.chunkSize), Media(UNBOUND, s)), t.bytes, 0).value.media.sink, n)
  {
    hide OneStreamPerTrack, Reconnects, DecodeFrom, SinkOk, Keeps;
    var w := World(Fresh(t.chunkSize), Media(UNBOUND, s));
    SinkPaired(lim, s);
    DecodeSound(amf, lim, alloc, w, t.bytes, 0, |s.events|);
    StreamKept(w.media, DecodeFrom(amf, lim, alloc, w, t.bytes, 0).value.media, |s.events|);
  }

  lemma SinkPaired(lim: Limits, s: Sink)
    requires SinkOk(lim, s)
    ensures |s.events| == |s.contexts|
  {
  }

  lemma {:induction false} TracesSound(amf: Amf, lim: Limits, alloc: nat -> Allocator, s: Sink, traces: seq<Trace>, index: nat)
    requires index <= |traces| && StreamOk(lim, s, if index == 0 then 0 else index - 1) && (index == 0 ==> s.events == [])
    requires DecodeTraces(amf, lim, alloc, s, traces, index).Ok?
    ensures StreamOk(lim, DecodeTraces(amf, lim, alloc, s, traces, index).value, if |traces| == 0 then 0 else |traces| - 1)
    decreases |traces| - index
  {
    hide OneStreamPerTrack, Reconnects, DecodeFrom, SinkOk, Push;
    if index < |traces| {
      var s1 := s;
      if index > 0 {
        PushOk(lim, s, RECONNECT, None);
        s1 := Push(lim, s, RECONNECT, None).value;
        ReconnectKept(s, s1);
      }
      TraceSound(amf, lim, alloc(index), s1, traces[index], index);
      var w := DecodeFrom(amf, lim, alloc(index), World(Fresh(traces[index].chunkSize), Media(UNBOUND, s1)), traces[index].bytes, 0).value;
      TracesSound(amf, lim, alloc, w.media.sink, traces, index + 1);
    }
  }

  /** Every accepted input: events and contexts pair up with contexts absent exactly at reconnects, one fewer of those than
      connections; counted octets are exact and within both limits; within a connection a track has one message stream. */
  lemma InputWellFormed(amf: Amf, lim: Limits, alloc: nat -> Allocator, traces: seq<Trace>)
    requires Input(amf, lim, alloc, traces).Ok?
    ensures traces != [] && StreamOk(lim, Input(amf, lim, alloc, traces).value, |traces| - 1)
  {
    hide DecodeTraces, CheckTraces;
    TracesSound(amf, lim, alloc, EMPTY_SINK, traces, 0);
  }
}
