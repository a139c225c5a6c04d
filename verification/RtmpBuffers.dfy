/** Conservation of the shared byte account of the chunk decoder. */
module RtmpBuffers {
  import opened Octets
  import opened RtmpMedia
  import opened RtmpChunks

  function CapacityAt(states: map<u32, ChunkState>, c: u32): nat {
    if c in states && states[c].assembly.Some? then states[c].assembly.value.capacity else 0
  }

  /** Capacities of all assemblies on chunk streams below `n`. */
  function SumCapacity(states: map<u32, ChunkState>, n: nat): nat
    requires n <= CSIDS
  {
    if n == 0 then 0 else SumCapacity(states, n - 1) + CapacityAt(states, n - 1)
  }

  lemma {:induction false} SumUpdate(states: map<u32, ChunkState>, c: u32, st: ChunkState, n: nat)
    requires n <= CSIDS
    ensures SumCapacity(states[c := st], n)
         == SumCapacity(states, n) + if c < n then CapacityAt(states[c := st], c) - CapacityAt(states, c) else 0
  {
    if n != 0 {
      SumUpdate(states, c, st, n - 1);
    }
  }

  lemma {:induction false} SumAtLeast(states: map<u32, ChunkState>, c: u32, n: nat)
    requires c < n <= CSIDS
    ensures CapacityAt(states, c) <= SumCapacity(states, n)
  {
    if c < n - 1 {
      SumAtLeast(states, c, n - 1);
    }
  }

  /** A buffer holds exactly what has been received of a retained message, and nothing of a skipped one. */
  predicate Holds(a: Assembly) {
    && a.received <= a.header.length
    && (if a.retain then |a.payload| == a.received <= a.capacity else a.payload == [] && a.capacity == 0)
  }

  /** At the head of the decoding loop: the account is the sum of the capacities, within the limit, and every message in
      flight is a strict prefix. */
  ghost predicate BufferInv(lim: Limits, d: Decoder) {
    && d.buffered == SumCapacity(d.states, CSIDS) <= lim.maxBufferedMessageBytes
    && forall c :: c in d.states ==>
         2 <= c < CSIDS && (d.states[c].assembly.Some? ==>
           Holds(d.states[c].assembly.value) && d.states[c].assembly.value.received < d.states[c].assembly.value.header.length)
  }

  lemma BufferInvInFlight(lim: Limits, d: Decoder)
    requires BufferInv(lim, d)
    ensures InFlightOk(d)
  {
  }

  /** Placing a chunk leaves the account alone. */
  lemma PlaceBuffers(lim: Limits, d: Decoder, head: Head)
    requires BufferInv(lim, d) && 2 <= head.csid < CSIDS && Place(lim, d, head).Ok?
    ensures var p := Place(lim, d, head).value;
            && p.buffered == d.buffered == SumCapacity(p.states, CSIDS)
            && p.chunkSize == d.chunkSize
            && p.Flight(head.csid).Some? && Holds(p.Flight(head.csid).value)
            && (forall c :: c in p.states ==> c == head.csid || (c in d.states && p.states[c] == d.states[c]))
  {
    hide DefinedKind, SumCapacity;
    var p := Place(lim, d, head).value;
    SumUpdate(d.states, head.csid, p.states[head.csid], CSIDS);
  }

  lemma ReserveBuffers(lim: Limits, alloc: Allocator, a: Assembly, buffered: nat, take: nat, off: nat)
    requires Holds(a) && a.retain && take <= a.header.length - a.received && a.capacity <= buffered <= lim.maxBufferedMessageBytes
    requires Reserve(lim, alloc, a, buffered, take, off).Ok?
    ensures var (capacity, next) := Reserve(lim, alloc, a, buffered, take, off).value;
            && |a.payload| + take <= capacity
            && (capacity != a.capacity ==> Min(2 * a.capacity, a.header.length) <= capacity)
            && next == buffered - a.capacity + capacity
            && next <= lim.maxBufferedMessageBytes
  {
  }

  lemma AbsorbBuffers(lim: Limits, alloc: Allocator, d: Decoder, csid: u32, b: seq<byte>, off: nat)
    requires off <= |b| && 2 <= csid < CSIDS && d.Flight(csid).Some? && Holds(d.Flight(csid).value)
    requires d.buffered == SumCapacity(d.states, CSIDS) <= lim.maxBufferedMessageBytes
    ensures Absorb(lim, alloc, d, csid, b, off) != Err(BufferUnderflow)
    ensures Absorb(lim, alloc, d, csid, b, off).Ok? ==>
              var d' := Absorb(lim, alloc, d, csid, b, off).value.decoder;
              && d'.buffered == SumCapacity(d'.states, CSIDS) <= lim.maxBufferedMessageBytes
              && d'.states.Keys == d.states.Keys
              && (forall c :: c in d.states && c != csid ==> d'.states[c] == d.states[c])
              && (d'.states[csid].assembly.Some? ==>
                    && Holds(d'.states[csid].assembly.value)
                    && d'.states[csid].assembly.value.received < d'.states[csid].assembly.value.header.length)
  {
    hide SumCapacity, Reserve;
    var a := d.Flight(csid).value;
    var take := Min(a.header.length - a.received, d.chunkSize);
    SumAtLeast(d.states, csid, CSIDS);
    ReserveNoUnderflow(lim, alloc, a, d.buffered, take, off);
    if a.retain && Reserve(lim, alloc, a, d.buffered, take, off).Ok? {
      ReserveBuffers(lim, alloc, a, d.buffered, take, off);
    }
    if Absorb(lim, alloc, d, csid, b, off).Ok? {
      SumUpdate(d.states, csid, Absorb(lim, alloc, d, csid, b, off).value.decoder.states[csid], CSIDS);
    }
  }

  lemma ReserveNoUnderflow(lim: Limits, alloc: Allocator, a: Assembly, buffered: nat, take: nat, off: nat)
    ensures Reserve(lim, alloc, a, buffered, take, off) != Err(BufferUnderflow)
  {
  }

  lemma HeadNoUnderflow(lim: Limits, d: Decoder, b: seq<byte>, off: nat)
    requires off <= |b|
    ensures ReadHead(d, b, off) != Err(BufferUnderflow)
    ensures ReadHead(d, b, off).Ok? ==> Place(lim, d, ReadHead(d, b, off).value) != Err(BufferUnderflow)
  {
    hide DefinedKind, U24, U32, U32Little;
  }

  /** Every chunk, from any wire, keeps the account; the underflow error of completion is unreachable. */
  lemma ChunkBuffers(lim: Limits, alloc: Allocator, d: Decoder, b: seq<byte>, off: nat)
    requires off <= |b| && BufferInv(lim, d) && InFlightOk(d)
    ensures Chunk(lim, alloc, d, b, off) != Err(BufferUnderflow)
    ensures Chunk(lim, alloc, d, b, off).Ok? ==> BufferInv(lim, Chunk(lim, alloc, d, b, off).value.decoder)
  {
    hide ReadHead, Place, Absorb, SumCapacity, Holds;
    HeadNoUnderflow(lim, d, b, off);
    var head := ReadHead(d, b, off);
    if head.Ok? && Place(lim, d, head.value).Ok? {
      PlaceBuffers(lim, d, head.value);
      AbsorbBuffers(lim, alloc, Place(lim, d, head.value).value, head.value.csid, b, head.value.next);
    }
  }

  /** Abort gives back exactly what the dropped message held; its underflow error is unreachable. */
  lemma ApplyBuffers(lim: Limits, d: Decoder, m: Message)
    requires BufferInv(lim, d)
    ensures Apply(d, m).Ok? && BufferInv(lim, Apply(d, m).value)
  {
    hide SumCapacity;
    if m.header.kind == ABORT_MESSAGE && |m.payload| == 4 {
      var target := U32(m.payload);
      if d.Flight(target).Some? {
        SumAtLeast(d.states, target, CSIDS);
        SumUpdate(d.states, target, d.states[target].(assembly := None), CSIDS);
      }
    }
  }

  lemma InterpretNoUnderflow(amf: Amf, lim: Limits, media: Media, m: Message)
    ensures Interpret(amf, lim, media, m) != Err(BufferUnderflow)
  {
    hide ParseMessage, U32;
  }

  /** The decoder at every head of the decoding loop, in order. */
  function LoopHeads(amf: Amf, lim: Limits, alloc: Allocator, w: World, b: seq<byte>, off: nat): (ds: seq<Decoder>)
    requires off <= |b| && InFlightOk(w.decoder)
    ensures |ds| >= 1 && ds[0] == w.decoder
    decreases |b| - off
  {
    [w.decoder] +
    if off == |b| || Chunk(lim, alloc, w.decoder, b, off).Err? then []
    else
      var taken := Chunk(lim, alloc, w.decoder, b, off).value;
      ChunkKeepsInFlight(lim, alloc, w.decoder, b, off);
      var w1 := World(taken.decoder, w.media);
      if taken.completed.None? then LoopHeads(amf, lim, alloc, w1, b, taken.next)
      else
        var w2 := Handle(amf, lim, w1, taken.completed.value);
        if w2.Err? then []
        else
          ApplyInFlight(w1.decoder, taken.completed.value);
          LoopHeads(amf, lim, alloc, w2.value, b, taken.next)
  }

  /** Over any wire whatsoever, accepted or not: the account is the sum of the capacities in flight and within its limit at
      every loop head, decoding never reports an underflow, and an accepted wire leaves the account empty. */
  lemma {:induction false} DecodeBuffers(amf: Amf, lim: Limits, alloc: Allocator, w: World, b: seq<byte>, off: nat)
    requires off <= |b| && BufferInv(lim, w.decoder) && InFlightOk(w.decoder)
    ensures forall i :: 0 <= i < |LoopHeads(amf, lim, alloc, w, b, off)| ==> BufferInv(lim, LoopHeads(amf, lim, alloc, w, b, off)[i])
    ensures DecodeFrom(amf, lim, alloc, w, b, off) != Err(BufferUnderflow)
    ensures DecodeFrom(amf, lim, alloc, w, b, off).Ok? ==>
              var d, heads := DecodeFrom(amf, lim, alloc, w, b, off).value.decoder, LoopHeads(amf, lim, alloc, w, b, off);
              d == heads[|heads| - 1] && d.buffered == 0
    decreases |b| - off
  {
    hide Chunk, BufferInv, Interpret, Apply, InFlightOk;
    if off == |b| {
      if Quiet(w.decoder) { QuietEmpty(lim, w.decoder); }
    } else {
      ChunkBuffers(lim, alloc, w.decoder, b, off);
      var taken := Chunk(lim, alloc, w.decoder, b, off);
      if taken.Ok? {
        ChunkKeepsInFlight(lim, alloc, w.decoder, b, off);
        var w1 := World(taken.value.decoder, w.media);
        if taken.value.completed.None? {
          DecodeBuffers(amf, lim, alloc, w1, b, taken.value.next);
        } else {
          var m := taken.value.completed.value;
          InterpretNoUnderflow(amf, lim, w.media, m);
          ApplyBuffers(lim, taken.value.decoder, m);
          var w2 := Handle(amf, lim, w1, m);
          if w2.Ok? {
            BufferInvInFlight(lim, w2.value.decoder);
            DecodeBuffers(amf, lim, alloc, w2.value, b, taken.value.next);
          }
        }
      }
    }
  }

  /** From the start of a connection. */
  lemma ConnectionBuffers(amf: Amf, lim: Limits, alloc: Allocator, chunkSize: nat, media: Media, b: seq<byte>)
    ensures var w := World(Fresh(chunkSize), media);
            && DecodeFrom(amf, lim, alloc, w, b, 0) != Err(BufferUnderflow)
            && forall i :: 0 <= i < |LoopHeads(amf, lim, alloc, w, b, 0)| ==> BufferInv(lim, LoopHeads(amf, lim, alloc, w, b, 0)[i])
  {
    FreshBuffers(lim, chunkSize);
    hide LoopHeads, DecodeFrom, BufferInv;
    DecodeBuffers(amf, lim, alloc, World(Fresh(chunkSize), media), b, 0);
  }

  lemma FreshBuffers(lim: Limits, chunkSize: nat)
    ensures BufferInv(lim, Fresh(chunkSize))
  {
    QuietSum(map[], CSIDS);
    hide SumCapacity;
  }

  lemma {:induction false} QuietSum(states: map<u32, ChunkState>, n: nat)
    requires n <= CSIDS && forall c :: c in states ==> states[c].assembly.None?
    ensures SumCapacity(states, n) == 0
  {
    if n != 0 {
      QuietSum(states, n - 1);
    }
  }

  lemma QuietEmpty(lim: Limits, d: Decoder)
    requires BufferInv(lim, d) && Quiet(d)
    ensures d.buffered == 0
  {
    hide SumCapacity;
    QuietSum(d.states, CSIDS);
  }
}
