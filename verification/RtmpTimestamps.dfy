/** The timestamp law: what every message's timestamp is, in terms of the chunk headers on the wire. */
module RtmpTimestamps {
  import opened Octets
  import opened RtmpMedia
  import opened RtmpChunks
  import opened RtmpRoundTrip

  // ---- What chunk headers carry -------------------------------------------------------------

  /** One chunk of a chunk stream: its format, whether it starts a message, and the timestamp value it carries. A type-3
      chunk carries none. */
  datatype Rec = Rec(fmt: nat, start: bool, value: u32)

  /** The timestamp field of a message header at `off`: 24 bits, or 32 bits after the header when those are all ones. */
  function Carried(fmt: nat, b: seq<byte>, off: nat): u32 {
    if fmt >= 3 || |b| < off + HeaderLength(fmt) then 0
    else if U24(b[off..]) != EXTENDED then U24(b[off..])
    else if |b| < off + HeaderLength(fmt) + 4 then 0
    else U32(b[off + HeaderLength(fmt)..])
  }

  /** The record of the chunk at `off`. */
  function RecordAt(d: Decoder, b: seq<byte>, off: nat): Rec
    requires off <= |b| && BasicHeader(b, off).Ok?
  {
    var (fmt, csid, basic) := BasicHeader(b, off).value;
    Rec(fmt, d.Flight(csid).None?, Carried(fmt, b, off + basic))
  }

  // ---- The law --------------------------------------------------------------------------------

  type Log = seq<Rec>

  predicate Anchored(log: Log) {
    |log| > 0 && log[0].fmt == 0
  }

  /** The latest type-0 chunk. */
  function Anchor(log: Log): (z: nat)
    requires Anchored(log)
    ensures z < |log| && log[z].fmt == 0 && forall i :: z < i < |log| ==> log[i].fmt != 0
  {
    if log[|log| - 1].fmt == 0 then |log| - 1 else Anchor(log[..|log| - 1])
  }

  /** The latest chunk up to `i` that carries a value. */
  function Carrier(log: Log, i: nat): (j: nat)
    requires Anchored(log) && i < |log|
    ensures j <= i && log[j].fmt != 3 && forall k :: j < k <= i ==> log[k].fmt == 3
  {
    if log[i].fmt != 3 then i else Carrier(log, i - 1)
  }

  /** How far chunk `i` moves the clock: a start by the last carried value, a continuation not at all. */
  function Advance(log: Log, i: nat): nat
    requires Anchored(log) && i < |log|
  {
    if log[i].start then log[Carrier(log, i)].value else 0
  }

  function Elapsed(log: Log, lo: nat, hi: nat): nat
    requires Anchored(log) && lo <= hi <= |log|
    decreases hi
  {
    if lo == hi then 0 else Elapsed(log, lo, hi - 1) + Advance(log, hi - 1)
  }

  /** The latest type-0 timestamp plus the deltas of all message starts since. */
  function Clock(log: Log): u32
    requires Anchored(log)
  {
    (log[Anchor(log)].value + Elapsed(log, Anchor(log) + 1, |log|)) % TWO32
  }

  lemma {:induction false} CarrierPrefix(log: Log, r: Rec, i: nat)
    requires Anchored(log) && i < |log|
    ensures Carrier(log + [r], i) == Carrier(log, i)
  {
    if log[i].fmt == 3 {
      CarrierPrefix(log, r, i - 1);
    }
  }

  lemma {:induction false} ElapsedPrefix(log: Log, r: Rec, lo: nat, hi: nat)
    requires Anchored(log) && lo <= hi <= |log|
    ensures Elapsed(log + [r], lo, hi) == Elapsed(log, lo, hi)
  {
    if lo != hi {
      ElapsedPrefix(log, r, lo, hi - 1);
      CarrierPrefix(log, r, hi - 1);
    }
  }

  lemma AddModulo(a: nat, d: nat)
    ensures (a % TWO32 + d) % TWO32 == (a + d) % TWO32
  {
  }

  lemma CarrierAppend(log: Log, r: Rec)
    requires Anchored(log)
    ensures Carrier(log + [r], |log|) == if r.fmt != 3 then |log| else Carrier(log, |log| - 1)
  {
    if r.fmt == 3 {
      CarrierPrefix(log, r, |log| - 1);
    }
  }

  /** One more chunk: a type 0 sets the clock, any other start advances it. */
  lemma ClockAppend(log: Log, r: Rec)
    requires Anchored(log)
    ensures r.fmt == 0 ==> Clock(log + [r]) == r.value
    ensures r.fmt != 0 ==> Clock(log + [r]) == (Clock(log) + Advance(log + [r], |log|)) % TWO32
  {
    hide Elapsed, Carrier;
    assert (log + [r])[..|log|] == log;
    if r.fmt != 0 {
      var z := Anchor(log);
      ElapsedAppend(log, r, z + 1);
      AddModulo(log[z].value + Elapsed(log, z + 1, |log|), Advance(log + [r], |log|));
    } else {
      ElapsedNothing(log + [r], |log| + 1);
    }
  }

  lemma ElapsedNothing(log: Log, hi: nat)
    requires Anchored(log) && hi <= |log|
    ensures Elapsed(log, hi, hi) == 0
  {
  }

  lemma ElapsedAppend(log: Log, r: Rec, lo: nat)
    requires Anchored(log) && lo <= |log|
    ensures Elapsed(log + [r], lo, |log| + 1) == Elapsed(log, lo, |log|) + Advance(log + [r], |log|)
  {
    hide Advance;
    ElapsedPrefix(log, r, lo, |log|);
  }

  // ---- The decoder keeps it ----------------------------------------------------------------------

  /** The header in force on a chunk stream shows the clock and the last carried value. */
  ghost predicate OnClock(st: ChunkState, log: Log) {
    && Anchored(log)
    && st.last.timestamp == Clock(log)
    && st.last.delta == log[Carrier(log, |log| - 1)].value
    && (st.assembly.Some? ==> st.assembly.value.header.timestamp == st.last.timestamp)
  }

  type Logs = map<u32, Log>

  function LogOf(logs: Logs, c: u32): Log {
    if c in logs then logs[c] else []
  }

  ghost predicate AllOnClock(d: Decoder, logs: Logs) {
    forall c :: c in d.states ==> OnClock(d.states[c], LogOf(logs, c))
  }

  /** What a chunk's header says of the clock, given the header before it. */
  predicate Tells(last: Option<Header>, r: Rec, h: Header) {
    if r.fmt == 0 then h.timestamp == r.value && h.delta == r.value
    else
      && last.Some?
      && if r.fmt == 3 then
           h.delta == last.value.delta
           && h.timestamp == (if r.start then (last.value.timestamp + last.value.delta) % TWO32 else last.value.timestamp)
         else h.delta == r.value && h.timestamp == (last.value.timestamp + r.value) % TWO32
  }

  lemma HeadClock(d: Decoder, b: seq<byte>, off: nat)
    requires off <= |b| && ReadHead(d, b, off).Ok?
    ensures BasicHeader(b, off).Ok?
    ensures var head, r := ReadHead(d, b, off).value, RecordAt(d, b, off);
            && head.csid == BasicHeader(b, off).value.1 && r.start == d.Flight(head.csid).None?
            && Tells(d.Last(head.csid), r, head.header)
  {
    hide U24, U32, U32Little, BasicHeader;
  }

  /** One chunk head on a stream that keeps the law. */
  lemma StreamClock(d: Decoder, c: u32, log: Log, r: Rec, st: ChunkState)
    requires c in d.states ==> OnClock(d.states[c], log)
    requires Tells(d.Last(c), r, st.last) && r.start == d.Flight(c).None?
    requires !r.start ==> st.last.timestamp == d.Flight(c).value.header.timestamp
    requires st.assembly.Some? ==> st.assembly.value.header.timestamp == st.last.timestamp
    ensures OnClock(st, (if c in d.states then log else []) + [r])
  {
    if c in d.states {
      CarrierAppend(log, r);
      ClockAppend(log, r);
      hide Clock, Carrier;
    }
  }

  /** The log of a chunk stream once the chunk at `off` is recorded. */
  function Recorded(logs: Logs, d: Decoder, b: seq<byte>, off: nat): Logs
    requires off <= |b| && BasicHeader(b, off).Ok?
  {
    var c := BasicHeader(b, off).value.1;
    logs[c := (if c in d.states then LogOf(logs, c) else []) + [RecordAt(d, b, off)]]
  }

  /** What placing and absorbing leave behind. */
  lemma ChunkStates(lim: Limits, alloc: Allocator, d: Decoder, b: seq<byte>, off: nat)
    requires off <= |b| && InFlightOk(d) && Chunk(lim, alloc, d, b, off).Ok?
    ensures ReadHead(d, b, off).Ok?
    ensures var head, taken := ReadHead(d, b, off).value, Chunk(lim, alloc, d, b, off).value;
            var c, d' := head.csid, taken.decoder;
            && d'.states.Keys == d.states.Keys + {c}
            && (forall x :: x in d.states && x != c ==> d'.states[x] == d.states[x])
            && d'.states[c].last == head.header
            && (d.Flight(c).Some? ==> head.header.timestamp == d.Flight(c).value.header.timestamp)
            && (d'.states[c].assembly.Some? ==> d'.states[c].assembly.value.header.timestamp == head.header.timestamp)
            && (taken.completed.Some? ==>
                  taken.completed.value.csid == c && taken.completed.value.header.timestamp == head.header.timestamp)
  {
    hide ReadHead, Reserve, DefinedKind, Retained;
  }

  /** Changing one chunk stream. */
  lemma StreamsKept(d: Decoder, d': Decoder, logs: Logs, c: u32, log: Log)
    requires AllOnClock(d, logs) && d'.states.Keys == d.states.Keys + {c} && OnClock(d'.states[c], log)
    requires forall x :: x in d.states && x != c ==> d'.states[x] == d.states[x]
    ensures AllOnClock(d', logs[c := log])
  {
    hide OnClock;
    forall x | x in d'.states ensures OnClock(d'.states[x], LogOf(logs[c := log], x)) {
      if x != c {
        assert OnClock(d.states[x], LogOf(logs, x));
      }
    }
  }

  /** The chunk stream of an accepted chunk keeps the law. */
  lemma ChunkStream(lim: Limits, alloc: Allocator, d: Decoder, logs: Logs, b: seq<byte>, off: nat)
    requires off <= |b| && InFlightOk(d) && AllOnClock(d, logs) && Chunk(lim, alloc, d, b, off).Ok?
    requires ReadHead(d, b, off).Ok? && BasicHeader(b, off).Ok? && BasicHeader(b, off).value.1 == ReadHead(d, b, off).value.csid
    ensures var c, d' := ReadHead(d, b, off).value.csid, Chunk(lim, alloc, d, b, off).value.decoder;
            && c in d'.states && OnClock(d'.states[c], Recorded(logs, d, b, off)[c])
            && d'.states[c].last == ReadHead(d, b, off).value.header
  {
    hide Chunk, ReadHead, RecordAt, InFlightOk, BasicHeader, OnClock, Tells;
    ChunkStates(lim, alloc, d, b, off);
    HeadClock(d, b, off);
    var c := ReadHead(d, b, off).value.csid;
    StreamClock(d, c, LogOf(logs, c), RecordAt(d, b, off), Chunk(lim, alloc, d, b, off).value.decoder.states[c]);
  }

  /** Every accepted chunk keeps the law, and the message it completes carries the clock. */
  lemma ChunkClock(lim: Limits, alloc: Allocator, d: Decoder, logs: Logs, b: seq<byte>, off: nat)
    requires off <= |b| && InFlightOk(d) && AllOnClock(d, logs) && Chunk(lim, alloc, d, b, off).Ok?
    ensures BasicHeader(b, off).Ok?
    ensures var taken, logs' := Chunk(lim, alloc, d, b, off).value, Recorded(logs, d, b, off);
            && AllOnClock(taken.decoder, logs')
            && (taken.completed.Some? ==>
                  var m := taken.completed.value;
                  m.csid in logs' && Anchored(logs'[m.csid]) && m.header.timestamp == Clock(logs'[m.csid]))
  {
    hide Chunk, ReadHead, AllOnClock, Clock, Carrier, RecordAt, InFlightOk, BasicHeader;
    ChunkStates(lim, alloc, d, b, off);
    HeadClock(d, b, off);
    ChunkStream(lim, alloc, d, logs, b, off);
    var c := ReadHead(d, b, off).value.csid;
    StreamsKept(d, Chunk(lim, alloc, d, b, off).value.decoder, logs, c, Recorded(logs, d, b, off)[c]);
  }

  /** Control messages leave the law alone: an aborted start still counts. */
  lemma ApplyClock(d: Decoder, logs: Logs, m: Message)
    requires AllOnClock(d, logs) && Apply(d, m).Ok?
    ensures AllOnClock(Apply(d, m).value, logs)
  {
    hide Clock, Carrier, U32;
    var d' := Apply(d, m).value;
    forall x | x in d'.states ensures OnClock(d'.states[x], LogOf(logs, x)) {
      assert OnClock(d.states[x], LogOf(logs, x));
    }
  }

  // ---- Whole connections -----------------------------------------------------------------------------

  /** A message handed on, with the chunks its chunk stream had seen by then. */
  datatype Delivery = Delivery(message: Message, log: Log)

  /** What a run hands on, in order. */
  function Deliveries(amf: Amf, lim: Limits, alloc: Allocator, w: World, logs: Logs, b: seq<byte>, off: nat): seq<Delivery>
    requires off <= |b| && InFlightOk(w.decoder)
    decreases |b| - off
  {
    if off == |b| then []
    else
      var taken := Chunk(lim, alloc, w.decoder, b, off);
      if taken.Err? || BasicHeader(b, off).Err? then []
      else
        ChunkKeepsInFlight(lim, alloc, w.decoder, b, off);
        var logs1, w1 := Recorded(logs, w.decoder, b, off), World(taken.value.decoder, w.media);
        if taken.value.completed.None? then Deliveries(amf, lim, alloc, w1, logs1, b, taken.value.next)
        else
          var m := taken.value.completed.value;
          var w2 := Handle(amf, lim, w1, m);
          [Delivery(m, LogOf(logs1, m.csid))] +
          if w2.Err? then []
          else
            ApplyInFlight(w1.decoder, m);
            Deliveries(amf, lim, alloc, w2.value, logs1, b, taken.value.next)
  }

  ghost predicate Lawful(v: Delivery) {
    Anchored(v.log) && v.message.header.timestamp == Clock(v.log)
  }

  /** Over any wire: every message handed on is timestamped by the law. */
  lemma {:induction false} TimestampLaw(amf: Amf, lim: Limits, alloc: Allocator, w: World, logs: Logs, b: seq<byte>, off: nat)
    requires off <= |b| && InFlightOk(w.decoder) && AllOnClock(w.decoder, logs)
    ensures forall v :: v in Deliveries(amf, lim, alloc, w, logs, b, off) ==> Lawful(v)
    decreases |b| - off
  {
    hide Chunk, AllOnClock, Lawful, Interpret, Apply, BasicHeader, Recorded, Clock, InFlightOk;
    if off < |b| && Chunk(lim, alloc, w.decoder, b, off).Ok? {
      var taken := Chunk(lim, alloc, w.decoder, b, off).value;
      ChunkKeepsInFlight(lim, alloc, w.decoder, b, off);
      ChunkClock(lim, alloc, w.decoder, logs, b, off);
      var logs1, w1 := Recorded(logs, w.decoder, b, off), World(taken.decoder, w.media);
      if taken.completed.None? {
        TimestampLaw(amf, lim, alloc, w1, logs1, b, taken.next);
      } else {
        var m := taken.completed.value;
        DeliveryLawful(m, logs1);
        var w2 := Handle(amf, lim, w1, m);
        if w2.Ok? {
          ApplyInFlight(w1.decoder, m);
          ApplyClock(w1.decoder, logs1, m);
          TimestampLaw(amf, lim, alloc, w2.value, logs1, b, taken.next);
        }
      }
    }
  }

  lemma DeliveryLawful(m: Message, logs: Logs)
    requires m.csid in logs && Anchored(logs[m.csid]) && m.header.timestamp == Clock(logs[m.csid])
    ensures Lawful(Delivery(m, LogOf(logs, m.csid)))
  {
  }

  function Messages(vs: seq<Delivery>): seq<Message> {
    if vs == [] then [] else [vs[0].message] + Messages(vs[1..])
  }

  /** The deliveries are the messages handed on. */
  lemma {:induction false} DeliveriesHandedOn(amf: Amf, lim: Limits, alloc: Allocator, w: World, logs: Logs, b: seq<byte>, off: nat)
    requires off <= |b| && InFlightOk(w.decoder)
    ensures Messages(Deliveries(amf, lim, alloc, w, logs, b, off)) == HandedOn(amf, lim, alloc, w, b, off)
    decreases |b| - off
  {
    hide Chunk, Interpret, Apply, BasicHeader, Recorded, InFlightOk, LogOf;
    if off < |b| && Chunk(lim, alloc, w.decoder, b, off).Ok? {
      var taken := Chunk(lim, alloc, w.decoder, b, off).value;
      ChunkKeepsInFlight(lim, alloc, w.decoder, b, off);
      ChunkBasic(lim, alloc, w.decoder, b, off);
      var logs1, w1 := Recorded(logs, w.decoder, b, off), World(taken.decoder, w.media);
      if taken.completed.None? {
        DeliveriesHandedOn(amf, lim, alloc, w1, logs1, b, taken.next);
      } else {
        var m := taken.completed.value;
        var w2 := Handle(amf, lim, w1, m);
        if w2.Ok? {
          ApplyInFlight(w1.decoder, m);
          DeliveriesHandedOn(amf, lim, alloc, w2.value, logs1, b, taken.next);
          var v, rest := Delivery(m, LogOf(logs1, m.csid)), Deliveries(amf, lim, alloc, w2.value, logs1, b, taken.next);
          assert ([v] + rest)[1..] == rest;
        }
      }
    }
  }

  /** The deliveries are all the events come from: an accepted wire means what its delivered messages mean in order. */
  lemma {:induction false} DeliveredMeaning(amf: Amf, lim: Limits, alloc: Allocator, w: World, logs: Logs, b: seq<byte>, off: nat)
    requires off <= |b| && InFlightOk(w.decoder) && DecodeFrom(amf, lim, alloc, w, b, off).Ok?
    ensures InterpretAll(amf, lim, w.media, Messages(Deliveries(amf, lim, alloc, w, logs, b, off)))
         == Ok(DecodeFrom(amf, lim, alloc, w, b, off).value.media)
    decreases |b| - off
  {
    hide Chunk, Interpret, Apply, BasicHeader, Recorded, InFlightOk, LogOf;
    if off < |b| {
      var taken := Chunk(lim, alloc, w.decoder, b, off).value;
      ChunkKeepsInFlight(lim, alloc, w.decoder, b, off);
      ChunkBasic(lim, alloc, w.decoder, b, off);
      var logs1, w1 := Recorded(logs, w.decoder, b, off), World(taken.decoder, w.media);
      if taken.completed.None? {
        DeliveredMeaning(amf, lim, alloc, w1, logs1, b, taken.next);
      } else {
        var m := taken.completed.value;
        var w2 := Handle(amf, lim, w1, m).value;
        ApplyInFlight(w1.decoder, m);
        DeliveredMeaning(amf, lim, alloc, w2, logs1, b, taken.next);
        var v, rest := Delivery(m, LogOf(logs1, m.csid)), Deliveries(amf, lim, alloc, w2, logs1, b, taken.next);
        assert ([v] + rest)[1..] == rest;
        assert ([m] + Messages(rest))[1..] == Messages(rest);
      }
    }
  }

  lemma ChunkBasic(lim: Limits, alloc: Allocator, d: Decoder, b: seq<byte>, off: nat)
    requires off <= |b| && InFlightOk(d) && Chunk(lim, alloc, d, b, off).Ok?
    ensures BasicHeader(b, off).Ok?
  {
    hide MessageHeader, ApplyExtended, Place, Absorb, BasicHeader;
  }

  /** From the start of a connection: the events of an accepted wire are those of messages all timestamped by the law. */
  lemma ConnectionTimestamps(amf: Amf, lim: Limits, alloc: Allocator, chunkSize: nat, media: Media, b: seq<byte>)
    requires DecodeFrom(amf, lim, alloc, World(Fresh(chunkSize), media), b, 0).Ok?
    ensures var vs := Deliveries(amf, lim, alloc, World(Fresh(chunkSize), media), map[], b, 0);
            && (forall v :: v in vs ==> Lawful(v))
            && Messages(vs) == HandedOn(amf, lim, alloc, World(Fresh(chunkSize), media), b, 0)
            && InterpretAll(amf, lim, media, Messages(vs))
               == Ok(DecodeFrom(amf, lim, alloc, World(Fresh(chunkSize), media), b, 0).value.media)
  {
    hide Lawful, InterpretAll, Messages;
    var w := World(Fresh(chunkSize), media);
    TimestampLaw(amf, lim, alloc, w, map[], b, 0);
    DeliveredMeaning(amf, lim, alloc, w, map[], b, 0);
    DeliveriesHandedOn(amf, lim, alloc, w, map[], b, 0);
  }
}
