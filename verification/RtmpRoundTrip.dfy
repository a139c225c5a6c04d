/** Decoding undoes chunking. */
module RtmpRoundTrip {
  import opened Octets
  import opened RtmpMedia
  import opened RtmpChunks
  import opened RtmpBuffers
  import opened RtmpSender

  // ---- Reading back what was written ------------------------------------------------------

  lemma U24At(b: seq<byte>, off: nat, v: nat)
    requires v < 0x100_0000 && At(b, off, BigEndian(3, v))
    ensures off + 3 <= |b| && U24(b[off..]) == v
  {
    Digits3(v);
    AtIndex(b, off, BigEndian(3, v), 0);
    AtIndex(b, off, BigEndian(3, v), 1);
    AtIndex(b, off, BigEndian(3, v), 2);
  }

  lemma U32Value(v: u32)
    ensures U32(BigEndian(4, v)) == v
  {
    Digits4(v);
  }

  lemma U32LittleValue(v: u32)
    ensures U32Little(U32LittleOctets(v)) == v
  {
  }

  /** Reading a field depends on its own octets only. */
  lemma FieldAt(b: seq<byte>, off: nat, s: seq<byte>)
    requires |s| == 4 && At(b, off, s)
    ensures off + 4 <= |b| && U32(b[off..]) == U32(s) && U32Little(b[off..]) == U32Little(s)
  {
    AtIndex(b, off, s, 0);
    AtIndex(b, off, s, 1);
    AtIndex(b, off, s, 2);
    AtIndex(b, off, s, 3);
  }

  lemma U32At(b: seq<byte>, off: nat, v: u32)
    requires At(b, off, BigEndian(4, v))
    ensures off + 4 <= |b| && U32(b[off..]) == v
  {
    hide U32, BigEndian, At;
    FieldAt(b, off, BigEndian(4, v));
    U32Value(v);
  }

  lemma U32LittleAt(b: seq<byte>, off: nat, v: u32)
    requires At(b, off, U32LittleOctets(v))
    ensures off + 4 <= |b| && U32Little(b[off..]) == v
  {
    hide U32Little, U32LittleOctets, At;
    FieldAt(b, off, U32LittleOctets(v));
    U32LittleValue(v);
  }

  lemma BasicReads(b: seq<byte>, off: nat, fmt: nat, csid: u32)
    requires fmt < 4 && 2 <= csid < CSIDS && At(b, off, BasicOctets(fmt, csid))
    ensures off + |BasicOctets(fmt, csid)| <= |b| && BasicHeader(b, off) == Ok((fmt, csid, |BasicOctets(fmt, csid)|))
  {
    var s := BasicOctets(fmt, csid);
    AtIndex(b, off, s, 0);
    if |s| > 1 { AtIndex(b, off, s, 1); }
    if |s| > 2 { AtIndex(b, off, s, 2); }
  }

  /** The header fields of a start read back, up to the 24-bit saturation of the timestamp field. */
  function Saturated(h: Header, fmt: nat, last: Option<Header>): Header {
    if fmt == 3 || !h.extended then h
    else if fmt == 0 then h.(timestamp := EXTENDED, delta := EXTENDED)
    else h.(timestamp := if last.Some? then (last.value.timestamp + EXTENDED) % TWO32 else h.timestamp, delta := EXTENDED)
  }

  lemma FieldsAt(b: seq<byte>, off: nat, h: Header, fmt: nat)
    requires fmt < 4 && h.length < 0x100_0000 && At(b, off, StartFields(h, fmt))
    ensures off + HeaderLength(fmt) <= |b|
    ensures fmt <= 2 ==> U24(b[off..]) == Min(h.delta, EXTENDED)
    ensures fmt <= 1 ==> U24(b[off + 3..]) == h.length && b[off + 6] == h.kind
    ensures fmt == 0 ==> U32Little(b[off + 7..]) == h.msid
  {
    var field, length := BigEndian(3, Min(h.delta, EXTENDED)), BigEndian(3, h.length);
    if fmt <= 2 {
      if fmt <= 1 {
        var tail := if fmt == 0 then U32LittleOctets(h.msid) else [];
        assert StartFields(h, fmt) == field + (length + ([h.kind] + tail));
        AtSplit(b, off, field, length + ([h.kind] + tail));
        AtSplit(b, off + 3, length, [h.kind] + tail);
        AtSplit(b, off + 6, [h.kind], tail);
        AtIndex(b, off + 6, [h.kind], 0);
        U24At(b, off + 3, h.length);
        if fmt == 0 { U32LittleAt(b, off + 7, h.msid); }
      }
      U24At(b, off, Min(h.delta, EXTENDED));
    }
  }

  lemma StartHeaderReads(s: Sender, fmt: nat, m: Msg, b: seq<byte>, off: nat)
    requires fmt < 4 && Compressible(s, fmt, m) && |m.payload| < 0x100_0000
    requires At(b, off, StartFields(StartHeader(s, fmt, m), fmt))
    ensures off <= |b|
    ensures var last := if m.csid in s.last then Some(s.last[m.csid]) else None;
            MessageHeader(fmt, last, b, off, false) == Ok(Saturated(StartHeader(s, fmt, m), fmt, last))
  {
    FieldsAt(b, off, StartHeader(s, fmt, m), fmt);
    hide StartFields, At, U24, U32Little;
    if fmt == 1 || fmt == 2 {
      DeltaReaches(s.last[m.csid], m.timestamp);
    }
  }

  lemma DeltaReaches(last: Header, timestamp: u32)
    ensures (last.timestamp + DeltaTo(last, timestamp)) % TWO32 == timestamp
  {
  }

  /** The extended timestamp restores what the 24-bit field saturated. */
  lemma ExtendedRestores(s: Sender, fmt: nat, m: Msg)
    requires fmt < 4 && Compressible(s, fmt, m) && StartHeader(s, fmt, m).extended
    ensures var last := if m.csid in s.last then Some(s.last[m.csid]) else None;
            var h := StartHeader(s, fmt, m);
            ApplyExtended(fmt, last, Saturated(h, fmt, last), h.delta, false) == Ok(h)
  {
    if fmt == 1 || fmt == 2 {
      DeltaReaches(s.last[m.csid], m.timestamp);
    }
  }

  // ---- Heads -----------------------------------------------------------------------------------

  lemma StartReads(d: Decoder, s: Sender, fmt: nat, m: Msg, b: seq<byte>, off: nat)
    requires fmt < 4 && 2 <= m.csid < CSIDS && Compressible(s, fmt, m) && |m.payload| < 0x100_0000
    requires d.Last(m.csid) == (if m.csid in s.last then Some(s.last[m.csid]) else None) && d.Flight(m.csid).None?
    requires At(b, off, StartOctets(StartHeader(s, fmt, m), fmt, m.csid))
    ensures off <= |b|
    ensures ReadHead(d, b, off)
         == Ok(Head(m.csid, fmt, StartHeader(s, fmt, m), off + |StartOctets(StartHeader(s, fmt, m), fmt, m.csid)|))
  {
    hide StartFields, BasicOctets, MessageHeader, ApplyExtended, BasicHeader, At, U32;
    var h, basic := StartHeader(s, fmt, m), BasicOctets(fmt, m.csid);
    var fields, ext := StartFields(h, fmt), if h.extended then BigEndian(4, h.delta) else [];
    assert StartOctets(h, fmt, m.csid) == basic + (fields + ext);
    AtSplit(b, off, basic, fields + ext);
    AtSplit(b, off + |basic|, fields, ext);
    BasicReads(b, off, fmt, m.csid);
    StartHeaderReads(s, fmt, m, b, off + |basic|);
    if h.extended {
      U32At(b, off + |basic| + |fields|, h.delta);
      ExtendedRestores(s, fmt, m);
    }
  }

  lemma ContinueReads(d: Decoder, h: Header, csid: u32, b: seq<byte>, off: nat)
    requires 2 <= csid < CSIDS && d.Last(csid) == Some(h) && d.Flight(csid).Some?
    requires At(b, off, ContinueOctets(h, csid))
    ensures off <= |b| && ReadHead(d, b, off) == Ok(Head(csid, 3, h, off + |ContinueOctets(h, csid)|))
  {
    hide BasicOctets, BasicHeader, U32;
    var basic, value := BasicOctets(3, csid), if h.absolute then h.timestamp else h.delta;
    AtSplit(b, off, basic, if h.extended then BigEndian(4, value) else []);
    BasicReads(b, off, 3, csid);
    if h.extended {
      U32At(b, off + |basic|, value);
    }
  }

  // ---- The simulation ----------------------------------------------------------------------------

  /** What the receiver holds of a message is the prefix that was sent. */
  ghost predicate Mirrors(a: Assembly, f: Flight, slack: nat) {
    && a.header == f.header && a.received == f.sent <= |f.payload| == f.header.length
    && a.retain == Retained(f.header.kind)
    && (a.retain ==> a.payload == f.payload[..f.sent])
    && a.capacity <= |f.payload| + slack
  }

  ghost predicate StreamRel(s: Sender, d: Decoder, slack: nat, c: u32) {
    && d.Last(c) == (if c in s.last then Some(s.last[c]) else None)
    && (d.Flight(c).Some? <==> c in s.flights)
    && (c in s.flights ==> Mirrors(d.Flight(c).value, s.flights[c], slack))
  }

  /** Sender and receiver agree on chunk size, headers and everything in flight. */
  ghost predicate Rel(lim: Limits, slack: nat, s: Sender, d: Decoder) {
    && SenderInv(lim, slack, s) && BufferInv(lim, d)
    && d.chunkSize == s.chunkSize && d.states.Keys == s.last.Keys
    && forall c :: StreamRel(s, d, slack, c)
  }

  /** The receiver's head matches the sender's action. */
  lemma HeadReads(lim: Limits, slack: nat, s: Sender, d: Decoder, a: Action, b: seq<byte>, off: nat)
    requires Rel(lim, slack, s, d) && Permitted(lim, slack, s, a)
    requires At(b, off, Emit(lim, slack, s, a))
    ensures off <= |b|
    ensures var f := Loaded(s, a);
            var next := off + |HeadOctets(s, a)|;
            && ReadHead(d, b, off) == Ok(Head(CsidOf(a), if a.Start? then a.fmt else 3, f.header, next))
            && At(b, next, Portion(s.chunkSize, f.payload, f.sent))
  {
    hide ReadHead, StartOctets, ContinueOctets, StartHeader, SenderInv, BufferInv, Room, Portion;
    assert StreamRel(s, d, slack, CsidOf(a));
    LoadedHeader(lim, slack, s, a);
    AtSplit(b, off, HeadOctets(s, a), Portion(s.chunkSize, Loaded(s, a).payload, Loaded(s, a).sent));
    match a
    case Start(fmt, m) => StartReads(d, s, fmt, m, b, off);
    case Continue(csid) =>
      LastIsFlight(lim, slack, s, csid);
      ContinueReads(d, s.flights[csid].header, csid, b, off);
  }

  lemma LastIsFlight(lim: Limits, slack: nat, s: Sender, c: u32)
    requires SenderInv(lim, slack, s) && c in s.flights
    ensures FlightOk(lim, s, c)
  {
  }

  // ---- Placing and absorbing -----------------------------------------------------------------------

  /** The receiver once the head is placed: the loaded flight, nothing taken yet. */
  ghost predicate PlacedRel(lim: Limits, slack: nat, s: Sender, d: Decoder, p: Decoder, a: Action)
    requires Permitted(lim, slack, s, a) && SenderInv(lim, slack, s)
  {
    var f, c := Loaded(s, a), CsidOf(a);
    && p.chunkSize == s.chunkSize && p.buffered == d.buffered
    && p.Last(c) == Some(f.header) && p.Flight(c).Some? && Mirrors(p.Flight(c).value, f, slack) && Holds(p.Flight(c).value)
    && p.states.Keys == d.states.Keys + {c}
    && (forall x :: x in d.states && x != c ==> p.states[x] == d.states[x])
  }

  lemma PlaceMirrors(lim: Limits, slack: nat, s: Sender, d: Decoder, a: Action, head: Head)
    requires Rel(lim, slack, s, d) && Permitted(lim, slack, s, a)
    requires head.csid == CsidOf(a) && head.header == Loaded(s, a).header
    ensures Place(lim, d, head).Ok? && PlacedRel(lim, slack, s, d, Place(lim, d, head).value, a)
  {
    LoadedHeader(lim, slack, s, a);
    SameCount(lim, slack, s, d);
    match a
    case Start(fmt, m) =>
      hide DefinedKind, StartHeader, Compressible, Room, SumCapacity, SenderInv, BufferInv;
      assert StreamRel(s, d, slack, m.csid);
    case Continue(csid) =>
      FlightHolds(lim, slack, s, d, csid);
      hide DefinedKind, Room, SenderInv, BufferInv, Holds;
      assert StreamRel(s, d, slack, csid);
  }

  lemma SameCount(lim: Limits, slack: nat, s: Sender, d: Decoder)
    requires Rel(lim, slack, s, d)
    ensures |d.states| == |s.last|
  {
    assert |d.states| == |d.states.Keys| && |s.last| == |s.last.Keys|;
  }

  /** What is in flight is held, under the header last announced. */
  lemma FlightHolds(lim: Limits, slack: nat, s: Sender, d: Decoder, c: u32)
    requires Rel(lim, slack, s, d) && c in s.flights
    ensures FlightOk(lim, s, c) && d.Flight(c).Some? && Holds(d.Flight(c).value)
  {
    hide SumCapacity, Room, Mirrors, Holds, FlightOk;
    assert StreamRel(s, d, slack, c);
  }

  lemma {:induction false} SumLe(states: map<u32, ChunkState>, flights: map<u32, Flight>, slack: nat, n: nat)
    requires n <= CSIDS && forall c: u32 :: c < n ==> CapacityAt(states, c) <= BoundAt(flights, slack, c)
    ensures SumCapacity(states, n) <= SumBound(flights, slack, n)
  {
    if n != 0 {
      SumLe(states, flights, slack, n - 1);
    }
  }

  /** An allocator that grants at most `slack` more than requested. */
  ghost predicate Frugal(alloc: Allocator, slack: nat) {
    forall off: nat, n: nat :: alloc(off, n) <= n + slack
  }

  /** The account with the loaded message at its bound stays within the limit. */
  lemma LoadedAccount(lim: Limits, slack: nat, s: Sender, d: Decoder, p: Decoder, a: Action)
    requires Rel(lim, slack, s, d) && Permitted(lim, slack, s, a) && PlacedRel(lim, slack, s, d, p, a)
    requires Retained(Loaded(s, a).header.kind) && p.buffered == SumCapacity(p.states, CSIDS)
    ensures p.buffered - p.Flight(CsidOf(a)).value.capacity + |Loaded(s, a).payload| + slack <= lim.maxBufferedMessageBytes
  {
    LoadedRoom(lim, slack, s, a);
    LoadedHeader(lim, slack, s, a);
    hide SumCapacity, SumBound, DefinedKind, StartHeader, Compressible, SenderInv, BufferInv;
    var c := CsidOf(a);
    var capacity := |Loaded(s, a).payload| + slack;
    var st := p.states[c].(assembly := Some(p.states[c].assembly.value.(capacity := capacity)));
    var full, flights := p.states[c := st], LoadedFlights(s, a);
    SumUpdate(p.states, c, st, CSIDS);
    forall x: u32 | x < CSIDS ensures CapacityAt(full, x) <= BoundAt(flights, slack, x) {
      OneBound(lim, slack, s, d, p, a, x);
    }
    SumLe(full, flights, slack, CSIDS);
  }

  lemma OneBound(lim: Limits, slack: nat, s: Sender, d: Decoder, p: Decoder, a: Action, x: u32)
    requires Rel(lim, slack, s, d) && Permitted(lim, slack, s, a) && PlacedRel(lim, slack, s, d, p, a)
    ensures x != CsidOf(a) ==> CapacityAt(p.states, x) <= BoundAt(LoadedFlights(s, a), slack, x)
  {
    hide SumCapacity, SumBound, DefinedKind, StartHeader, Compressible, SenderInv;
    assert StreamRel(s, d, slack, x);
  }

  lemma ReserveSucceeds(lim: Limits, slack: nat, alloc: Allocator, a: Assembly, buffered: nat, take: nat, off: nat)
    requires Frugal(alloc, slack) && Holds(a) && a.retain && take <= a.header.length - a.received
    requires a.capacity <= buffered && a.capacity <= a.header.length + slack
    requires buffered - a.capacity + a.header.length + slack <= lim.maxBufferedMessageBytes
    ensures Reserve(lim, alloc, a, buffered, take, off).Ok?
    ensures Reserve(lim, alloc, a, buffered, take, off).value.0 <= a.header.length + slack
  {
    var required := |a.payload| + take;
    if required > a.capacity {
      var target := TargetCapacity(a, required, take);
      assert required <= target <= a.header.length;
      assert alloc(off, target) <= target + slack;
    }
  }

  /** Room for what the assembly still needs. */
  lemma MirrorReserve(lim: Limits, slack: nat, alloc: Allocator, p: Decoder, c: u32, f: Flight, off: nat)
    requires Frugal(alloc, slack) && p.Flight(c).Some? && Mirrors(p.Flight(c).value, f, slack) && Holds(p.Flight(c).value)
    requires c < CSIDS && p.buffered == SumCapacity(p.states, CSIDS) <= lim.maxBufferedMessageBytes
    requires p.Flight(c).value.retain && p.buffered - p.Flight(c).value.capacity + |f.payload| + slack <= lim.maxBufferedMessageBytes
    ensures var asm, take := p.Flight(c).value, Min(f.header.length - f.sent, p.chunkSize);
            var r := Reserve(lim, alloc, asm, p.buffered, take, off);
            && r.Ok? && r.value.0 <= |f.payload| + slack && r.value.0 <= r.value.1
  {
    hide SumCapacity, Reserve;
    var asm, take := p.Flight(c).value, Min(f.header.length - f.sent, p.chunkSize);
    SumAtLeast(p.states, c, CSIDS);
    ReserveSucceeds(lim, slack, alloc, asm, p.buffered, take, off);
    ReserveBuffers(lim, alloc, asm, p.buffered, take, off);
  }

  /** Taking one portion of a mirrored flight. */
  lemma AbsorbFlight(lim: Limits, slack: nat, alloc: Allocator, p: Decoder, c: u32, f: Flight, b: seq<byte>, off: nat)
    requires Frugal(alloc, slack) && p.Flight(c).Some? && Mirrors(p.Flight(c).value, f, slack) && Holds(p.Flight(c).value)
    requires c < CSIDS && p.buffered == SumCapacity(p.states, CSIDS) <= lim.maxBufferedMessageBytes
    requires p.Flight(c).value.retain ==>
               p.buffered - p.Flight(c).value.capacity + |f.payload| + slack <= lim.maxBufferedMessageBytes
    requires At(b, off, Portion(p.chunkSize, f.payload, f.sent))
    ensures off <= |b|
    ensures var take := Min(f.header.length - f.sent, p.chunkSize);
            var r := Absorb(lim, alloc, p, c, b, off);
            && r.Ok? && r.value.next == off + take
            && r.value.decoder.Last(c) == p.Last(c) && r.value.decoder.chunkSize == p.chunkSize
            && (if f.sent + take < |f.payload|
                then r.value.completed.None? && r.value.decoder.Flight(c).Some?
                     && Mirrors(r.value.decoder.Flight(c).value, f.(sent := f.sent + take), slack)
                else r.value.decoder.Flight(c).None? &&
                     r.value.completed == if Retained(f.header.kind) then Some(Message(c, f.header, f.payload)) else None)
  {
    hide SumCapacity, Reserve, Retained;
    var asm, take := p.Flight(c).value, Min(f.header.length - f.sent, p.chunkSize);
    if asm.retain {
      MirrorReserve(lim, slack, alloc, p, c, f, off);
      assert f.payload[..f.sent] + b[off..off + take] == f.payload[..f.sent + take];
      assert f.payload[..|f.payload|] == f.payload;
    }
  }

  /** Taking the chunk's payload moves the receiver exactly as the sender moved. */
  lemma AbsorbMirrors(lim: Limits, slack: nat, alloc: Allocator, s: Sender, d: Decoder, p: Decoder, a: Action, b: seq<byte>, off: nat)
    requires Frugal(alloc, slack) && Rel(lim, slack, s, d) && Permitted(lim, slack, s, a) && PlacedRel(lim, slack, s, d, p, a)
    requires p.buffered == SumCapacity(p.states, CSIDS) <= lim.maxBufferedMessageBytes
    requires At(b, off, Portion(s.chunkSize, Loaded(s, a).payload, Loaded(s, a).sent))
    ensures off <= |b|
    ensures var c, s' := CsidOf(a), Sent(lim, slack, s, a);
            var done := Completes(lim, slack, s, a);
            var r := Absorb(lim, alloc, p, c, b, off);
            && r.Ok? && r.value.next == off + |Portion(s.chunkSize, Loaded(s, a).payload, Loaded(s, a).sent)|
            && r.value.completed == (if done.Some? && Retained(done.value.header.kind) then done else None)
            && StreamRel(s', r.value.decoder, slack, c)
            && r.value.decoder.chunkSize == s.chunkSize
  {
    hide SumCapacity, SumBound, DefinedKind, StartHeader, Compressible, Absorb, SenderInv, BufferInv, Room, Mirrors, Holds, Retained;
    hide Sent, Completes, Loaded, Rel, Permitted;
    RelParts(lim, slack, s, d);
    LoadedHeader(lim, slack, s, a);
    EmitLength(lim, slack, s, a);
    SentStream(lim, slack, s, a);
    if p.Flight(CsidOf(a)).value.retain {
      RetainedKind(p.Flight(CsidOf(a)).value, Loaded(s, a), slack);
      LoadedAccount(lim, slack, s, d, p, a);
    }
    AbsorbFlight(lim, slack, alloc, p, CsidOf(a), Loaded(s, a), b, off);
  }

  /** The sender's own record of the chunk it sent. */
  lemma SentStream(lim: Limits, slack: nat, s: Sender, a: Action)
    requires SenderInv(lim, slack, s) && Permitted(lim, slack, s, a)
    ensures var f, c, s' := Loaded(s, a), CsidOf(a), Sent(lim, slack, s, a);
            var sent := f.sent + Min(|f.payload| - f.sent, s.chunkSize);
            && c in s'.last && s'.last[c] == f.header
            && (sent < |f.payload| ==> c in s'.flights && s'.flights[c] == f.(sent := sent) && Completes(lim, slack, s, a).None?)
            && (sent >= |f.payload| ==> c !in s'.flights && Completes(lim, slack, s, a) == Some(Message(c, f.header, f.payload)))
  {
    LoadedHeader(lim, slack, s, a);
    hide StartHeader, SenderInv, Compressible, Room, DefinedKind, Loaded;
  }

  lemma RetainedKind(a: Assembly, f: Flight, slack: nat)
    requires Mirrors(a, f, slack)
    ensures a.retain == Retained(f.header.kind)
  {
  }

  // ---- One chunk -----------------------------------------------------------------------------------------

  /** Sender and receiver stay in step over one chunk, and the receiver completes what the sender completes. */
  lemma ChunkMirrors(lim: Limits, slack: nat, alloc: Allocator, s: Sender, d: Decoder, a: Action, b: seq<byte>, off: nat)
    requires Frugal(alloc, slack) && Rel(lim, slack, s, d) && Permitted(lim, slack, s, a) && InFlightOk(d)
    requires At(b, off, Emit(lim, slack, s, a))
    ensures off <= |b|
    ensures var done := Completes(lim, slack, s, a);
            var r := Chunk(lim, alloc, d, b, off);
            && r.Ok? && r.value.next == off + |Emit(lim, slack, s, a)|
            && r.value.completed == (if done.Some? && Retained(done.value.header.kind) then done else None)
            && Rel(lim, slack, Sent(lim, slack, s, a), r.value.decoder)
  {
    hide Chunk, ReadHead, Place, Absorb, Permitted, SenderInv, BufferInv, Emit, HeadOctets, Portion, Loaded, Sent, Completes, PlacedRel,
         SumCapacity, Rel, Retained, Mirrors, Holds, At, StreamRel;
    RelParts(lim, slack, s, d);
    EmitLength(lim, slack, s, a);
    HeadReads(lim, slack, s, d, a, b, off);
    ChunkBuffers(lim, alloc, d, b, off);
    var head := ReadHead(d, b, off).value;
    PlaceMirrors(lim, slack, s, d, a, head);
    PlaceBuffers(lim, d, head);
    var p := Place(lim, d, head).value;
    AccountWithin(lim, d);
    AbsorbMirrors(lim, slack, alloc, s, d, p, a, b, head.next);
    HoldsBound(p.Flight(head.csid).value);
    AbsorbBuffers(lim, alloc, p, head.csid, b, head.next);
    ChunkCompose(lim, alloc, d, b, off, head, p);
    StepRel(lim, slack, s, d, p, Absorb(lim, alloc, p, head.csid, b, head.next).value.decoder, a);
  }

  lemma HoldsBound(a: Assembly)
    requires Holds(a)
    ensures a.received <= a.header.length
  {
  }

  lemma RelParts(lim: Limits, slack: nat, s: Sender, d: Decoder)
    requires Rel(lim, slack, s, d)
    ensures SenderInv(lim, slack, s) && BufferInv(lim, d)
  {
  }

  lemma EmitLength(lim: Limits, slack: nat, s: Sender, a: Action)
    requires SenderInv(lim, slack, s) && Permitted(lim, slack, s, a)
    ensures 2 <= CsidOf(a) < CSIDS && Loadable(s, a) && Loaded(s, a).sent <= |Loaded(s, a).payload|
    ensures |Emit(lim, slack, s, a)| == |HeadOctets(s, a)| + |Portion(s.chunkSize, Loaded(s, a).payload, Loaded(s, a).sent)|
  {
    LoadedHeader(lim, slack, s, a);
  }

  lemma ChunkCompose(lim: Limits, alloc: Allocator, d: Decoder, b: seq<byte>, off: nat, head: Head, p: Decoder)
    requires off <= |b| && InFlightOk(d) && ReadHead(d, b, off) == Ok(head) && Place(lim, d, head) == Ok(p)
    requires p.Flight(head.csid).Some? && p.Flight(head.csid).value.received <= p.Flight(head.csid).value.header.length
    ensures Chunk(lim, alloc, d, b, off) == Absorb(lim, alloc, p, head.csid, b, head.next)
  {
    hide ReadHead, Absorb;
  }

  /** The relation after the chunk, stream by stream. */
  lemma StepRel(lim: Limits, slack: nat, s: Sender, d: Decoder, p: Decoder, d': Decoder, a: Action)
    requires Rel(lim, slack, s, d) && Permitted(lim, slack, s, a) && PlacedRel(lim, slack, s, d, p, a)
    requires d'.states.Keys == p.states.Keys && (forall c :: c in p.states && c != CsidOf(a) ==> d'.states[c] == p.states[c])
    requires BufferInv(lim, d') && d'.chunkSize == s.chunkSize && StreamRel(Sent(lim, slack, s, a), d', slack, CsidOf(a))
    ensures Rel(lim, slack, Sent(lim, slack, s, a), d')
  {
    SentInv(lim, slack, s, a);
    SentOthers(lim, slack, s, a);
    OthersKept(lim, slack, s, d, p, d', a);
    hide Sent, SenderInv, BufferInv, StreamRel, PlacedRel, Permitted;
    forall c ensures StreamRel(Sent(lim, slack, s, a), d', slack, c) {
    }
  }

  lemma AccountWithin(lim: Limits, d: Decoder)
    requires BufferInv(lim, d)
    ensures d.buffered <= lim.maxBufferedMessageBytes
  {
  }

  lemma SentOthers(lim: Limits, slack: nat, s: Sender, a: Action)
    requires SenderInv(lim, slack, s) && Permitted(lim, slack, s, a)
    ensures var s' := Sent(lim, slack, s, a);
            && s'.last.Keys == s.last.Keys + {CsidOf(a)} && s'.chunkSize == s.chunkSize
            && (forall c :: c != CsidOf(a) ==> (c in s'.last <==> c in s.last) && (c in s'.flights <==> c in s.flights))
            && (forall c :: c in s.last && c != CsidOf(a) ==> s'.last[c] == s.last[c])
            && (forall c :: c in s.flights && c != CsidOf(a) ==> s'.flights[c] == s.flights[c])
  {
    hide StartHeader, SenderInv, Compressible, Room, DefinedKind;
  }

  /** Chunk streams other than the action's stay in step. */
  lemma OtherStream(s: Sender, d: Decoder, slack: nat, s': Sender, d': Decoder, c: u32)
    requires StreamRel(s, d, slack, c)
    requires (c in s'.last <==> c in s.last) && (c in s'.flights <==> c in s.flights) && (c in d'.states <==> c in d.states)
    requires c in s.last ==> s'.last[c] == s.last[c]
    requires c in s.flights ==> s'.flights[c] == s.flights[c]
    requires c in d.states ==> d'.states[c] == d.states[c]
    ensures StreamRel(s', d', slack, c)
  {
    hide Mirrors;
  }

  lemma OthersKept(lim: Limits, slack: nat, s: Sender, d: Decoder, p: Decoder, d': Decoder, a: Action)
    requires Rel(lim, slack, s, d) && Permitted(lim, slack, s, a) && PlacedRel(lim, slack, s, d, p, a)
    requires d'.states.Keys == p.states.Keys && (forall c :: c in p.states && c != CsidOf(a) ==> d'.states[c] == p.states[c])
    ensures var s' := Sent(lim, slack, s, a);
            && d'.states.Keys == s'.last.Keys
            && forall c :: c != CsidOf(a) ==> StreamRel(s', d', slack, c)
  {
    SentOthers(lim, slack, s, a);
    hide StreamRel, Sent, SenderInv, BufferInv, Mirrors, Holds, Loaded, Permitted;
    var s' := Sent(lim, slack, s, a);
    forall c | c != CsidOf(a) ensures StreamRel(s', d', slack, c) {
      assert StreamRel(s, d, slack, c);
      OtherStream(s, d, slack, s', d', c);
    }
  }

  // ---- Completed messages ---------------------------------------------------------------------------------

  /** A well-formed control message changes the chunk size, or drops a flight, on both sides alike. */
  lemma EffectMirrors(lim: Limits, slack: nat, s: Sender, d: Decoder, m: Message)
    requires Rel(lim, slack, s, d) && Retained(m.header.kind) && CheckPlacement(m).None? && CheckControl(lim, m).None?
    ensures Apply(d, m).Ok? && Rel(lim, slack, Effect(lim, s, m), Apply(d, m).value)
  {
    ApplyBuffers(lim, d, m);
    EffectInv(lim, slack, s, m);
    hide SenderInv, BufferInv, Mirrors, U32, CheckPlacement, Retained, CheckControl;
    var s', d' := Effect(lim, s, m), Apply(d, m).value;
    forall c ensures StreamRel(s', d', slack, c) {
      assert StreamRel(s, d, slack, c);
    }
  }

  /** Hand messages to the media parser one after another. */
  function InterpretAll(amf: Amf, lim: Limits, media: Media, ms: seq<Message>): Result<Media, WireError>
    decreases |ms|
  {
    if ms == [] then Ok(media)
    else
      var next :- Interpret(amf, lim, media, ms[0]);
      InterpretAll(amf, lim, next, ms[1..])
  }

  /** The messages that get to be interpreted: all, or up to the first that is refused. */
  function Heard(amf: Amf, lim: Limits, media: Media, ms: seq<Message>): seq<Message>
    decreases |ms|
  {
    if ms == [] then []
    else
      var next := Interpret(amf, lim, media, ms[0]);
      [ms[0]] + if next.Err? then [] else Heard(amf, lim, next.value, ms[1..])
  }

  /** A prefix, whole unless a message is refused and then ending with that message. */
  lemma {:induction false} HeardIsPrefix(amf: Amf, lim: Limits, media: Media, ms: seq<Message>)
    ensures Heard(amf, lim, media, ms) <= ms
    ensures InterpretAll(amf, lim, media, ms).Ok? ==> Heard(amf, lim, media, ms) == ms
    ensures InterpretAll(amf, lim, media, ms).Err? ==>
              Heard(amf, lim, media, ms) != [] && InterpretAll(amf, lim, media, Heard(amf, lim, media, ms)) == InterpretAll(amf, lim, media, ms)
    decreases |ms|
  {
    hide Interpret;
    if ms != [] {
      var next := Interpret(amf, lim, media, ms[0]);
      var heard := Heard(amf, lim, media, ms);
      assert [ms[0]] + ms[1..] == ms;
      if next.Ok? {
        HeardIsPrefix(amf, lim, next.value, ms[1..]);
        assert heard[1..] == Heard(amf, lim, next.value, ms[1..]);
      }
    }
  }

  lemma InterpretChecks(amf: Amf, lim: Limits, media: Media, m: Message)
    requires Interpret(amf, lim, media, m).Ok?
    ensures CheckPlacement(m).None? && CheckControl(lim, m).None?
  {
    hide ParseMessage;
  }

  /** The receiver's loop over a chunk that completes nothing. */
  lemma DecodeOnward(amf: Amf, lim: Limits, alloc: Allocator, w: World, b: seq<byte>, off: nat, d: Decoder, next: nat)
    requires off < |b| && InFlightOk(w.decoder) && Chunk(lim, alloc, w.decoder, b, off) == Ok(Taken(d, next, None))
    ensures next <= |b| && InFlightOk(d)
    ensures DecodeFrom(amf, lim, alloc, w, b, off) == DecodeFrom(amf, lim, alloc, World(d, w.media), b, next)
    ensures HandedOn(amf, lim, alloc, w, b, off) == HandedOn(amf, lim, alloc, World(d, w.media), b, next)
  {
    hide Chunk, Handle, InFlightOk;
    ChunkKeepsInFlight(lim, alloc, w.decoder, b, off);
  }

  /** The receiver's loop over a chunk that completes a message. */
  lemma DecodeMessage(amf: Amf, lim: Limits, alloc: Allocator, w: World, b: seq<byte>, off: nat, d: Decoder, next: nat, m: Message)
    requires off < |b| && InFlightOk(w.decoder) && Chunk(lim, alloc, w.decoder, b, off) == Ok(Taken(d, next, Some(m)))
    ensures next <= |b| && InFlightOk(d)
    ensures Interpret(amf, lim, w.media, m).Err? ==>
              && DecodeFrom(amf, lim, alloc, w, b, off) == Err(Interpret(amf, lim, w.media, m).error)
              && HandedOn(amf, lim, alloc, w, b, off) == [m]
    ensures Interpret(amf, lim, w.media, m).Ok? && Apply(d, m).Ok? && InFlightOk(Apply(d, m).value) ==>
              var w' := World(Apply(d, m).value, Interpret(amf, lim, w.media, m).value);
              && DecodeFrom(amf, lim, alloc, w, b, off) == DecodeFrom(amf, lim, alloc, w', b, next)
              && HandedOn(amf, lim, alloc, w, b, off) == [m] + HandedOn(amf, lim, alloc, w', b, next)
  {
    hide Chunk, Interpret, Apply, InFlightOk;
    ChunkKeepsInFlight(lim, alloc, w.decoder, b, off);
  }

  /** The message the receiver is handed with an action's chunk. */
  function Handed(lim: Limits, slack: nat, s: Sender, a: Action): Option<Message>
    requires SenderInv(lim, slack, s) && Permitted(lim, slack, s, a)
  {
    var done := Completes(lim, slack, s, a);
    if done.Some? && Retained(done.value.header.kind) then done else None
  }

  lemma HandedEffect(lim: Limits, slack: nat, s: Sender, a: Action)
    requires SenderInv(lim, slack, s) && Permitted(lim, slack, s, a)
    ensures Handed(lim, slack, s, a).None? ==> Next(lim, slack, s, a) == Sent(lim, slack, s, a)
    ensures Handed(lim, slack, s, a).Some? ==>
              && Retained(Handed(lim, slack, s, a).value.header.kind)
              && Next(lim, slack, s, a) == Effect(lim, Sent(lim, slack, s, a), Handed(lim, slack, s, a).value)
  {
    hide Sent, Completes, SenderInv, Permitted;
  }

  /** What the receiver has seen once the message of a chunk is interpreted. */
  function Seen(amf: Amf, lim: Limits, media: Media, handed: Option<Message>): Result<Media, WireError> {
    if handed.Some? then Interpret(amf, lim, media, handed.value) else Ok(media)
  }

  function AsList(m: Option<Message>): seq<Message> {
    if m.Some? then [m.value] else []
  }

  /** The receiver over one chunk: stopped by the message the chunk completed, or in step. */
  lemma OneChunk(amf: Amf, lim: Limits, slack: nat, alloc: Allocator, s: Sender, w: World, a: Action, b: seq<byte>, off: nat)
    returns (d: Decoder)
    requires Frugal(alloc, slack) && Rel(lim, slack, s, w.decoder) && Permitted(lim, slack, s, a)
    requires At(b, off, Emit(lim, slack, s, a)) && off < |b| && InFlightOk(w.decoder)
    ensures off + |Emit(lim, slack, s, a)| <= |b|
    ensures var seen, r := Seen(amf, lim, w.media, Handed(lim, slack, s, a)), DecodeFrom(amf, lim, alloc, w, b, off);
            var on, handed := HandedOn(amf, lim, alloc, w, b, off), AsList(Handed(lim, slack, s, a));
            if seen.Err? then r == Err(seen.error) && on == handed
            else
              var w', next := World(d, seen.value), off + |Emit(lim, slack, s, a)|;
              && Rel(lim, slack, Next(lim, slack, s, a), d) && InFlightOk(d)
              && r == DecodeFrom(amf, lim, alloc, w', b, next)
              && on == handed + HandedOn(amf, lim, alloc, w', b, next)
  {
    hide Chunk, Rel, Emit, Sent, Next, Completes, Interpret, Apply, Effect, Permitted, At, DecodeFrom, HandedOn, SenderInv, InFlightOk, Retained,
         CheckPlacement, CheckControl, Frugal;
    RelParts(lim, slack, s, w.decoder);
    ChunkMirrors(lim, slack, alloc, s, w.decoder, a, b, off);
    var taken := Chunk(lim, alloc, w.decoder, b, off).value;
    d := taken.decoder;
    HandedEffect(lim, slack, s, a);
    var handed := Handed(lim, slack, s, a);
    if handed.None? {
      DecodeOnward(amf, lim, alloc, w, b, off, d, taken.next);
      assert [] + HandedOn(amf, lim, alloc, w, b, off) == HandedOn(amf, lim, alloc, w, b, off);
    } else {
      var m := handed.value;
      DecodeMessage(amf, lim, alloc, w, b, off, d, taken.next, m);
      if Interpret(amf, lim, w.media, m).Ok? {
        InterpretChecks(amf, lim, w.media, m);
        EffectMirrors(lim, slack, Sent(lim, slack, s, a), d, m);
        RelInFlight(lim, slack, Next(lim, slack, s, a), Apply(d, m).value);
        d := Apply(d, m).value;
      }
    }
  }

  lemma RelInFlight(lim: Limits, slack: nat, s: Sender, d: Decoder)
    requires Rel(lim, slack, s, d)
    ensures InFlightOk(d)
  {
    BufferInvInFlight(lim, d);
  }

  /** For every schedule, the messages handed on are exactly the retained ones the sender completed, with their headers and
      payloads, in completion order, up to the first that is refused; decoding fails with that refusal, or in the middle of
      a message exactly when the sender ends there. */
  lemma {:induction false} DecodeUndoesChunking(amf: Amf, lim: Limits, slack: nat, alloc: Allocator, s: Sender, w: World,
                                                actions: seq<Action>, b: seq<byte>, off: nat)
    requires Frugal(alloc, slack) && Rel(lim, slack, s, w.decoder) && InFlightOk(w.decoder)
    requires Schedule(lim, slack, s, actions)
    requires At(b, off, Wire(lim, slack, s, actions)) && off + |Wire(lim, slack, s, actions)| == |b|
    ensures var r, handed := DecodeFrom(amf, lim, alloc, w, b, off), InterpretAll(amf, lim, w.media, Completed(lim, slack, s, actions));
            if handed.Err? then r == Err(handed.error)
            else if Final(lim, slack, s, actions).flights != map[] then r == Err(EndedInMessage)
            else r.Ok? && r.value.media == handed.value
    ensures HandedOn(amf, lim, alloc, w, b, off) == Heard(amf, lim, w.media, Completed(lim, slack, s, actions))
    decreases |actions|
  {
    hide Rel, Emit, Handed, Seen, Interpret, Permitted, Chunk, Handle, Next, SenderInv, AsList;
    RelParts(lim, slack, s, w.decoder);
    if actions == [] {
      QuietWhenIdle(lim, slack, s, w.decoder);
    } else {
      var a := actions[0];
      NextInv(lim, slack, s, a);
      var chunk, s' := Emit(lim, slack, s, a), Next(lim, slack, s, a);
      var rest := Wire(lim, slack, s', actions[1..]);
      AtSplit(b, off, chunk, rest);
      EmitNonempty(lim, slack, s, a);
      var d := OneChunk(amf, lim, slack, alloc, s, w, a, b, off);
      CompletedUnfold(amf, lim, slack, s, actions, w.media);
      var seen := Seen(amf, lim, w.media, Handed(lim, slack, s, a));
      if seen.Ok? {
        DecodeUndoesChunking(amf, lim, slack, alloc, s', World(d, seen.value), actions[1..], b, off + |chunk|);
      }
    }
  }

  lemma EmitNonempty(lim: Limits, slack: nat, s: Sender, a: Action)
    requires SenderInv(lim, slack, s) && Permitted(lim, slack, s, a)
    ensures |Emit(lim, slack, s, a)| > 0
  {
    EmitLength(lim, slack, s, a);
    hide Emit, SenderInv, Permitted, StartHeader, Portion, StartFields;
  }

  lemma CompletedUnfold(amf: Amf, lim: Limits, slack: nat, s: Sender, actions: seq<Action>, media: Media)
    requires SenderInv(lim, slack, s) && Schedule(lim, slack, s, actions) && actions != []
    ensures Permitted(lim, slack, s, actions[0]) && SenderInv(lim, slack, Next(lim, slack, s, actions[0]))
    ensures Schedule(lim, slack, Next(lim, slack, s, actions[0]), actions[1..])
    ensures var seen := Seen(amf, lim, media, Handed(lim, slack, s, actions[0]));
            InterpretAll(amf, lim, media, Completed(lim, slack, s, actions)) ==
            if seen.Err? then Err(seen.error)
            else InterpretAll(amf, lim, seen.value, Completed(lim, slack, Next(lim, slack, s, actions[0]), actions[1..]))
    ensures var seen := Seen(amf, lim, media, Handed(lim, slack, s, actions[0]));
            Heard(amf, lim, media, Completed(lim, slack, s, actions)) == AsList(Handed(lim, slack, s, actions[0])) +
            if seen.Err? then [] else Heard(amf, lim, seen.value, Completed(lim, slack, Next(lim, slack, s, actions[0]), actions[1..]))
  {
    hide SenderInv, Permitted, Completes, Next, Interpret, Retained;
    NextInv(lim, slack, s, actions[0]);
    var done := Completes(lim, slack, s, actions[0]);
    var rest := Completed(lim, slack, Next(lim, slack, s, actions[0]), actions[1..]);
    if done.Some? && Retained(done.value.header.kind) {
      assert ([done.value] + rest)[1..] == rest;
    } else {
      assert [] + rest == rest;
    }
  }

  lemma QuietWhenIdle(lim: Limits, slack: nat, s: Sender, d: Decoder)
    requires Rel(lim, slack, s, d)
    ensures Quiet(d) <==> s.flights == map[]
  {
    hide SenderInv, BufferInv, Mirrors;
    if Quiet(d) {
      forall c ensures c !in s.flights {
        assert StreamRel(s, d, slack, c);
      }
      assert s.flights == map[];
    } else {
      var c :| c in d.states && d.states[c].assembly.Some?;
      assert StreamRel(s, d, slack, c);
    }
  }

  /** The same from the start of a connection: the messages handed on are exactly the retained ones the sender completed,
      as far as none is refused. */
  lemma ConnectionRoundTrip(amf: Amf, lim: Limits, slack: nat, alloc: Allocator, chunkSize: nat, media: Media, actions: seq<Action>)
    requires Frugal(alloc, slack) && chunkSize >= 1
    ensures var s := Sender(chunkSize, map[], map[]);
            && SenderInv(lim, slack, s)
            && (Schedule(lim, slack, s, actions) && Final(lim, slack, s, actions).flights == map[] ==>
                  var w, b, sent := World(Fresh(chunkSize), media), Wire(lim, slack, s, actions), Completed(lim, slack, s, actions);
                  var r, on, handed := DecodeFrom(amf, lim, alloc, w, b, 0), HandedOn(amf, lim, alloc, w, b, 0), InterpretAll(amf, lim, media, sent);
                  && on == Heard(amf, lim, media, sent) && on <= sent
                  && if handed.Err? then r == Err(handed.error) else r.Ok? && r.value.media == handed.value && on == sent)
  {
    var s := Sender(chunkSize, map[], map[]);
    FreshRel(lim, slack, chunkSize);
    hide Rel, DecodeFrom, HandedOn, InterpretAll, Heard;
    if Schedule(lim, slack, s, actions) {
      HeardIsPrefix(amf, lim, media, Completed(lim, slack, s, actions));
      DecodeUndoesChunking(amf, lim, slack, alloc, s, World(Fresh(chunkSize), media), actions, Wire(lim, slack, s, actions), 0);
    }
  }

  lemma FreshRel(lim: Limits, slack: nat, chunkSize: nat)
    requires chunkSize >= 1
    ensures SenderInv(lim, slack, Sender(chunkSize, map[], map[])) && InFlightOk(Fresh(chunkSize))
    ensures Rel(lim, slack, Sender(chunkSize, map[], map[]), Fresh(chunkSize))
  {
    NoBound(slack, CSIDS);
    QuietSum(map[], CSIDS);
    hide SumBound, SumCapacity;
  }

  lemma {:induction false} NoBound(slack: nat, n: nat)
    requires n <= CSIDS
    ensures SumBound(map[], slack, n) == 0
  {
    if n != 0 {
      NoBound(slack, n - 1);
    }
  }
}
