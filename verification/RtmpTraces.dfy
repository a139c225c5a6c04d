/** Which lists of connection traces are accepted, and how their events follow one another. */
module RtmpTraces {
  import opened Octets
  import opened ErtmpTypes
  import opened RtmpMedia
  import opened RtmpChunks
  import opened RtmpConnections

  // ---- What every trace must meet ------------------------------------------------------------------

  function TotalBytes(traces: seq<Trace>): nat {
    if traces == [] then 0 else |traces[0].bytes| + TotalBytes(traces[1..])
  }

  /** Both sides offered the capability of bit 4, AMF3 was negotiated, and chunk size and length are within limits. */
  predicate Fine(lim: Limits, t: Trace) {
    && t.clientCaps % 32 >= 16 && t.serverCaps % 32 >= 16 && t.objectEncoding == 3
    && 1 <= t.chunkSize <= lim.maxChunkSize && |t.bytes| <= lim.maxWireBytes
  }

  lemma OfferMeans(caps: u64)
    ensures OffersC2pa(caps) <==> caps % 32 >= 16
  {
    assert caps == caps / 32 * 32 + caps % 32;
    assert caps / 16 == caps / 32 * 2 + caps % 32 / 16;
  }

  lemma {:induction false} CheckExact(lim: Limits, traces: seq<Trace>, total: nat)
    ensures CheckTraces(lim, traces, total).None? <==>
              (forall i :: 0 <= i < |traces| ==> Fine(lim, traces[i])) && (traces != [] ==> total + TotalBytes(traces) <= lim.maxTotalWireBytes)
    decreases |traces|
  {
    if traces != [] {
      var t, rest := traces[0], traces[1..];
      OfferMeans(t.clientCaps);
      OfferMeans(t.serverCaps);
      CheckExact(lim, rest, total + |t.bytes|);
      hide OffersC2pa;
      assert (forall i :: 0 <= i < |traces| ==> Fine(lim, traces[i])) <==> Fine(lim, t) && forall i :: 0 <= i < |rest| ==> Fine(lim, rest[i]) by {
        AllFine(lim, traces);
      }
      hide Fine;
    }
  }

  lemma AllFine(lim: Limits, traces: seq<Trace>)
    requires traces != []
    ensures (forall i :: 0 <= i < |traces| ==> Fine(lim, traces[i])) <==>
              Fine(lim, traces[0]) && forall i :: 0 <= i < |traces[1..]| ==> Fine(lim, traces[1..][i])
  {
    hide Fine;
    if Fine(lim, traces[0]) && forall i :: 0 <= i < |traces[1..]| ==> Fine(lim, traces[1..][i]) {
      forall i | 0 <= i < |traces| ensures Fine(lim, traces[i]) {
        assert i > 0 ==> traces[i] == traces[1..][i - 1];
      }
    }
  }

  // ---- One connection after another --------------------------------------------------------------------

  /** A connection starts with no chunk stream, no bound track and its own chunk size. */
  ghost predicate StartsAnew(t: Trace, w: World) {
    && w.decoder.chunkSize == t.chunkSize && w.decoder.states == map[] && w.decoder.buffered == 0
    && forall track :: w.media.bindings.Slot(track).None?
  }

  /** The wire of one connection, decoded from `start` on, leaves `end`. */
  ghost predicate Connects(amf: Amf, lim: Limits, alloc: Allocator, t: Trace, start: Sink, end: Sink) {
    exists w: World :: StartsAnew(t, w) && InFlightOk(w.decoder) && w.media.sink == start && LeavesSink(amf, lim, alloc, t, w, end)
  }

  ghost predicate LeavesSink(amf: Amf, lim: Limits, alloc: Allocator, t: Trace, w: World, end: Sink)
    requires InFlightOk(w.decoder)
  {
    DecodeFrom(amf, lim, alloc, w, t.bytes, 0).Ok? && DecodeFrom(amf, lim, alloc, w, t.bytes, 0).value.media.sink == end
  }

  /** A reconnect marker: an event without context that costs 16 octets and counts like any other. */
  predicate Reconnected(lim: Limits, s: Sink, r: Sink) {
    && |s.events| < lim.maxEvents && |s.events| < 1_000_000 && s.payloadBytes + 16 <= lim.maxTotalEventPayloadBytes
    && r == Sink(s.events + [Reconnect], s.contexts + [None], s.payloadBytes + 16)
  }

  /** The sinks before and after each connection from the `index`-th on. */
  ghost predicate Chained(amf: Amf, lim: Limits, alloc: nat -> Allocator, traces: seq<Trace>, index: nat, sink: Sink, starts: seq<Sink>, ends: seq<Sink>)
  {
    && index <= |traces| && |starts| == |ends| == |traces| - index
    && (starts != [] ==> if index == 0 then starts[0] == sink else Reconnected(lim, sink, starts[0]))
    && (forall i :: 0 <= i < |starts| ==> Connects(amf, lim, alloc(index + i), traces[index + i], starts[i], ends[i]))
    && forall i :: 0 < i < |starts| ==> Reconnected(lim, ends[i - 1], starts[i])
  }

  lemma ReconnectExact(lim: Limits, s: Sink)
    ensures var r := Push(lim, s, RECONNECT, None);
            (r.Ok? ==> Reconnected(lim, s, r.value)) && forall x :: Reconnected(lim, s, x) ==> r == Ok(x)
  {
  }

  lemma AnewIs(t: Trace, w: World, s: Sink)
    requires StartsAnew(t, w) && w.media.sink == s
    ensures w == World(Fresh(t.chunkSize), Media(UNBOUND, s))
  {
    var b := w.media.bindings;
    forall i | 0 <= i < 256 ensures b.video[i] == None && b.audio[i] == None {
      assert b.Slot(Track(Video, i)).None? && b.Slot(Track(Audio, i)).None?;
    }
    assert b.video == UNBOUND.video && b.audio == UNBOUND.audio;
  }

  lemma FreshStarts(t: Trace, s: Sink)
    ensures StartsAnew(t, World(Fresh(t.chunkSize), Media(UNBOUND, s))) && InFlightOk(Fresh(t.chunkSize))
  {
  }

  lemma ConnectsExact(amf: Amf, lim: Limits, alloc: Allocator, t: Trace, s: Sink)
    ensures InFlightOk(Fresh(t.chunkSize))
    ensures var r := DecodeFrom(amf, lim, alloc, World(Fresh(t.chunkSize), Media(UNBOUND, s)), t.bytes, 0);
            && (r.Ok? ==> Connects(amf, lim, alloc, t, s, r.value.media.sink))
            && forall end :: Connects(amf, lim, alloc, t, s, end) ==> r.Ok? && end == r.value.media.sink
  {
    hide DecodeFrom, StartsAnew;
    FreshStarts(t, s);
    var w0 := World(Fresh(t.chunkSize), Media(UNBOUND, s));
    var r := DecodeFrom(amf, lim, alloc, w0, t.bytes, 0);
    if r.Ok? {
      assert LeavesSink(amf, lim, alloc, t, w0, r.value.media.sink);
    }
    forall end | Connects(amf, lim, alloc, t, s, end) ensures r.Ok? && end == r.value.media.sink {
      var w: World :| StartsAnew(t, w) && InFlightOk(w.decoder) && w.media.sink == s && LeavesSink(amf, lim, alloc, t, w, end);
      AnewIs(t, w, s);
    }
  }

  lemma ChainMore(amf: Amf, lim: Limits, alloc: nat -> Allocator, traces: seq<Trace>, index: nat, sink: Sink, start: Sink, end: Sink,
                  starts: seq<Sink>, ends: seq<Sink>)
    requires index < |traces| && (if index == 0 then start == sink else Reconnected(lim, sink, start))
    requires Connects(amf, lim, alloc(index), traces[index], start, end) && Chained(amf, lim, alloc, traces, index + 1, end, starts, ends)
    ensures Chained(amf, lim, alloc, traces, index, sink, [start] + starts, [end] + ends)
  {
    hide Connects, Reconnected;
    var xs, ys := [start] + starts, [end] + ends;
    forall i | 0 <= i < |xs| ensures Connects(amf, lim, alloc(index + i), traces[index + i], xs[i], ys[i]) {
      if i > 0 {
        assert Connects(amf, lim, alloc(index + 1 + (i - 1)), traces[index + 1 + (i - 1)], starts[i - 1], ends[i - 1]);
      }
    }
    forall i | 0 < i < |xs| ensures Reconnected(lim, ys[i - 1], xs[i]) {
      if i > 1 {
        assert Reconnected(lim, ends[i - 2], starts[i - 1]);
      }
    }
  }

  lemma {:induction false} TracesChain(amf: Amf, lim: Limits, alloc: nat -> Allocator, sink: Sink, traces: seq<Trace>, index: nat)
    returns (starts: seq<Sink>, ends: seq<Sink>)
    requires index <= |traces| && DecodeTraces(amf, lim, alloc, sink, traces, index).Ok?
    ensures Chained(amf, lim, alloc, traces, index, sink, starts, ends)
    ensures DecodeTraces(amf, lim, alloc, sink, traces, index).value == if ends == [] then sink else ends[|ends| - 1]
    decreases |traces| - index
  {
    hide DecodeFrom, Push, Connects, Reconnected, Chained;
    if index == |traces| {
      starts, ends := [], [];
      NoChain(amf, lim, alloc, traces, sink);
    } else {
      ReconnectExact(lim, sink);
      var start := if index == 0 then sink else Push(lim, sink, RECONNECT, None).value;
      var t := traces[index];
      ConnectsExact(amf, lim, alloc(index), t, start);
      var end := DecodeFrom(amf, lim, alloc(index), World(Fresh(t.chunkSize), Media(UNBOUND, start)), t.bytes, 0).value.media.sink;
      var xs, ys := TracesChain(amf, lim, alloc, end, traces, index + 1);
      ChainMore(amf, lim, alloc, traces, index, sink, start, end, xs, ys);
      starts, ends := [start] + xs, [end] + ys;
      if ys != [] {
        assert ends[|ends| - 1] == ys[|ys| - 1];
      }
    }
  }

  lemma NoChain(amf: Amf, lim: Limits, alloc: nat -> Allocator, traces: seq<Trace>, sink: Sink)
    ensures Chained(amf, lim, alloc, traces, |traces|, sink, [], [])
  {
  }

  lemma ChainLess(amf: Amf, lim: Limits, alloc: nat -> Allocator, traces: seq<Trace>, index: nat, sink: Sink, starts: seq<Sink>, ends: seq<Sink>)
    requires Chained(amf, lim, alloc, traces, index, sink, starts, ends) && index < |traces|
    ensures starts != [] && (if index == 0 then starts[0] == sink else Reconnected(lim, sink, starts[0]))
    ensures Connects(amf, lim, alloc(index), traces[index], starts[0], ends[0])
    ensures Chained(amf, lim, alloc, traces, index + 1, ends[0], starts[1..], ends[1..])
  {
    hide Connects, Reconnected;
    assert Connects(amf, lim, alloc(index + 0), traces[index + 0], starts[0], ends[0]);
    var later := index + 1;
    forall i | 0 <= i < |starts[1..]| ensures Connects(amf, lim, alloc(later + i), traces[later + i], starts[1..][i], ends[1..][i]) {
      assert Connects(amf, lim, alloc(index + (i + 1)), traces[index + (i + 1)], starts[i + 1], ends[i + 1]);
    }
    forall i | 0 < i < |starts[1..]| ensures Reconnected(lim, ends[1..][i - 1], starts[1..][i]) {
      assert Reconnected(lim, ends[(i + 1) - 1], starts[i + 1]);
    }
  }

  lemma {:induction false} ChainDecodes(amf: Amf, lim: Limits, alloc: nat -> Allocator, sink: Sink, traces: seq<Trace>, index: nat,
                                        starts: seq<Sink>, ends: seq<Sink>)
    requires index <= |traces| && Chained(amf, lim, alloc, traces, index, sink, starts, ends)
    ensures DecodeTraces(amf, lim, alloc, sink, traces, index) == Ok(if ends == [] then sink else ends[|ends| - 1])
    decreases |traces| - index
  {
    hide DecodeFrom, Push, Connects, Reconnected;
    if index < |traces| {
      ReconnectExact(lim, sink);
      ChainLess(amf, lim, alloc, traces, index, sink, starts, ends);
      ConnectsExact(amf, lim, alloc(index), traces[index], starts[0]);
      ChainDecodes(amf, lim, alloc, ends[0], traces, index + 1, starts[1..], ends[1..]);
    } else {
      assert ends == [];
    }
  }

  /** Each trace is fine, there is one, and together they are within the limit. */
  ghost predicate AllFineTogether(lim: Limits, traces: seq<Trace>) {
    traces != [] && (forall i :: 0 <= i < |traces| ==> Fine(lim, traces[i])) && TotalBytes(traces) <= lim.maxTotalWireBytes
  }

  lemma InputChecks(amf: Amf, lim: Limits, alloc: nat -> Allocator, traces: seq<Trace>)
    ensures var r := DecodeTraces(amf, lim, alloc, EMPTY_SINK, traces, 0);
            && (Input(amf, lim, alloc, traces).Ok? <==> AllFineTogether(lim, traces) && r.Ok?)
            && (Input(amf, lim, alloc, traces).Ok? ==> Input(amf, lim, alloc, traces) == r)
  {
    hide CheckTraces, DecodeTraces, Fine, TotalBytes;
    CheckExact(lim, traces, 0);
  }

  /** A chain decodes to its end. */
  lemma ChainEnds(amf: Amf, lim: Limits, alloc: nat -> Allocator, traces: seq<Trace>, starts: seq<Sink>, ends: seq<Sink>)
    requires traces != [] && Chained(amf, lim, alloc, traces, 0, EMPTY_SINK, starts, ends)
    ensures |ends| == |traces| && DecodeTraces(amf, lim, alloc, EMPTY_SINK, traces, 0) == Ok(ends[|traces| - 1])
  {
    hide DecodeTraces, Chained;
    ChainLength(amf, lim, alloc, traces, starts, ends);
    ChainDecodes(amf, lim, alloc, EMPTY_SINK, traces, 0, starts, ends);
  }

  /** Traces are accepted exactly if there is one, each is fine, together they are within the limit, and they connect one after
      another: each from where the one before it left off, behind a reconnect marker, with nothing of an earlier connection's chunk
      streams or bindings. The events are those after the last. */
  lemma InputExact(amf: Amf, lim: Limits, alloc: nat -> Allocator, traces: seq<Trace>)
    ensures Input(amf, lim, alloc, traces).Ok? <==>
              AllFineTogether(lim, traces) && exists starts: seq<Sink>, ends: seq<Sink> :: Chained(amf, lim, alloc, traces, 0, EMPTY_SINK, starts, ends)
    ensures Input(amf, lim, alloc, traces).Ok? ==>
              forall starts: seq<Sink>, ends: seq<Sink> :: Chained(amf, lim, alloc, traces, 0, EMPTY_SINK, starts, ends) ==>
                traces != [] && |ends| == |traces| && Input(amf, lim, alloc, traces).value == ends[|traces| - 1]
    ensures EMPTY_SINK == Sink([], [], 0)
  {
    hide Input, DecodeTraces, Chained, Fine, TotalBytes;
    InputChecks(amf, lim, alloc, traces);
    if traces != [] {
      forall starts: seq<Sink>, ends: seq<Sink> | Chained(amf, lim, alloc, traces, 0, EMPTY_SINK, starts, ends)
        ensures |ends| == |traces| && DecodeTraces(amf, lim, alloc, EMPTY_SINK, traces, 0) == Ok(ends[|traces| - 1])
      {
        ChainEnds(amf, lim, alloc, traces, starts, ends);
      }
      if DecodeTraces(amf, lim, alloc, EMPTY_SINK, traces, 0).Ok? {
        var starts, ends := TracesChain(amf, lim, alloc, EMPTY_SINK, traces, 0);
      }
    }
  }

  lemma ChainLength(amf: Amf, lim: Limits, alloc: nat -> Allocator, traces: seq<Trace>, starts: seq<Sink>, ends: seq<Sink>)
    requires Chained(amf, lim, alloc, traces, 0, EMPTY_SINK, starts, ends)
    ensures |ends| == |traces|
  {
  }
}
