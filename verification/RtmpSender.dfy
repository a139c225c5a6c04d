/** A chunking sender: any interleaving of message starts, in any header format, with type-3 continuations. */
module RtmpSender {
  import opened Octets
  import opened RtmpMedia
  import opened RtmpChunks

  // ---- Fields --------------------------------------------------------------------------

  function U32LittleOctets(v: u32): (s: seq<byte>)
    ensures |s| == 4
  {
    [v % 256, v / 256 % 256, v / 256 / 256 % 256, v / 256 / 256 / 256]
  }

  function BasicOctets(fmt: nat, csid: u32): (s: seq<byte>)
    requires fmt < 4 && 2 <= csid < CSIDS
    ensures 1 <= |s| <= 3
  {
    if csid < 64 then [fmt * 64 + csid]
    else if csid < 320 then [fmt * 64, csid - 64]
    else [fmt * 64 + 1, (csid - 64) % 256, (csid - 64) / 256]
  }

  // ---- The sender --------------------------------------------------------------------------

  /** A message to send. */
  datatype Msg = Msg(csid: u32, kind: byte, msid: u32, timestamp: u32, payload: seq<byte>)

  /** A message partly sent. */
  datatype Flight = Flight(header: Header, payload: seq<byte>, sent: nat)

  datatype Sender = Sender(chunkSize: nat, last: map<u32, Header>, flights: map<u32, Flight>)

  /** Start a message with a header of the given format, or send the next chunk of the one in flight. */
  datatype Action = Start(fmt: nat, msg: Msg) | Continue(csid: u32)

  /** Difference of a message's timestamp to the previous one of its chunk stream. */
  function DeltaTo(last: Header, timestamp: u32): u32 {
    (timestamp - last.timestamp) % TWO32
  }

  /** The header a start announces. */
  function StartHeader(s: Sender, fmt: nat, m: Msg): Header
    requires fmt < 4 && (fmt != 0 ==> m.csid in s.last)
  {
    if fmt == 0 then Header(m.timestamp, m.timestamp, |m.payload|, m.kind, m.msid, m.timestamp >= EXTENDED, true)
    else if fmt == 3 then
      var last := s.last[m.csid];
      Header(m.timestamp, last.delta, |m.payload|, m.kind, m.msid, last.extended, false)
    else
      var delta := DeltaTo(s.last[m.csid], m.timestamp);
      Header(m.timestamp, delta, |m.payload|, m.kind, m.msid, delta >= EXTENDED, false)
  }

  /** Formats 1 to 3 repeat fields of the previous header of the chunk stream, so they need those fields to agree. */
  predicate Compressible(s: Sender, fmt: nat, m: Msg) {
    fmt != 0 ==>
      && m.csid in s.last && s.last[m.csid].msid == m.msid
      && (fmt >= 2 ==> s.last[m.csid].length == |m.payload| && s.last[m.csid].kind == m.kind)
      && (fmt == 3 ==> m.timestamp == (s.last[m.csid].timestamp + s.last[m.csid].delta) % TWO32)
  }

  function StartOctets(h: Header, fmt: nat, csid: u32): seq<byte>
    requires fmt < 4 && 2 <= csid < CSIDS && h.length < 0x100_0000
  {
    BasicOctets(fmt, csid) + StartFields(h, fmt) + if h.extended then BigEndian(4, h.delta) else []
  }

  /** The message header between the basic header and the extended timestamp. */
  function StartFields(h: Header, fmt: nat): (s: seq<byte>)
    requires fmt < 4 && h.length < 0x100_0000
    ensures |s| == HeaderLength(fmt)
  {
    var field := BigEndian(3, Min(h.delta, EXTENDED));
    if fmt == 0 then field + BigEndian(3, h.length) + [h.kind] + U32LittleOctets(h.msid)
    else if fmt == 1 then field + BigEndian(3, h.length) + [h.kind]
    else if fmt == 2 then field
    else []
  }

  function ContinueOctets(h: Header, csid: u32): seq<byte>
    requires 2 <= csid < CSIDS
  {
    BasicOctets(3, csid) + if h.extended then BigEndian(4, if h.absolute then h.timestamp else h.delta) else []
  }

  function Portion(chunkSize: nat, payload: seq<byte>, sent: nat): (s: seq<byte>)
    requires sent <= |payload|
    ensures |s| == Min(|payload| - sent, chunkSize)
  {
    payload[sent..sent + Min(|payload| - sent, chunkSize)]
  }

  // ---- What may be sent ------------------------------------------------------------------------

  /** Most a retained message may hold in the receiver's account when allocations exceed requests by at most `slack`. */
  function BoundAt(flights: map<u32, Flight>, slack: nat, c: u32): nat {
    if c in flights && Retained(flights[c].header.kind) then |flights[c].payload| + slack else 0
  }

  function SumBound(flights: map<u32, Flight>, slack: nat, n: nat): nat
    requires n <= CSIDS
  {
    if n == 0 then 0 else SumBound(flights, slack, n - 1) + BoundAt(flights, slack, n - 1)
  }

  predicate Room(lim: Limits, slack: nat, flights: map<u32, Flight>) {
    SumBound(flights, slack, CSIDS) <= lim.maxBufferedMessageBytes
  }

  /** The action has a header to announce or a flight to continue. */
  predicate Loadable(s: Sender, a: Action) {
    match a
    case Start(fmt, m) => fmt < 4 && 2 <= m.csid < CSIDS && |m.payload| < 0x100_0000 && (fmt != 0 ==> m.csid in s.last)
    case Continue(csid) => csid in s.flights
  }

  /** An action the sender may take within the receiver's limits: one message in flight per chunk stream. */
  predicate Permitted(lim: Limits, slack: nat, s: Sender, a: Action) {
    && Loadable(s, a)
    && (a.Start? ==>
          && a.msg.csid !in s.flights && Compressible(s, a.fmt, a.msg)
          && |a.msg.payload| <= lim.maxMessageBytes && DefinedKind(a.msg.kind)
          && (a.msg.csid in s.last || |s.last| < lim.maxActiveChunkStreams)
          && Room(lim, slack, s.flights[a.msg.csid := Flight(StartHeader(s, a.fmt, a.msg), a.msg.payload, 0)]))
  }

  /** A flight that has been announced and not finished. */
  ghost predicate FlightOk(lim: Limits, s: Sender, c: u32)
    requires c in s.flights
  {
    var f := s.flights[c];
    && 2 <= c < CSIDS && c in s.last && s.last[c] == f.header
    && f.header.length == |f.payload| && f.sent < |f.payload| <= lim.maxMessageBytes && DefinedKind(f.header.kind)
  }

  ghost predicate SenderInv(lim: Limits, slack: nat, s: Sender) {
    s.chunkSize >= 1 && Room(lim, slack, s.flights) && forall c :: c in s.flights ==> FlightOk(lim, s, c)
  }

  // ---- Sending -------------------------------------------------------------------------------------

  /** The flight an action works on, before its chunk is sent. */
  function Loaded(s: Sender, a: Action): (f: Flight)
    requires Loadable(s, a)
  {
    match a case Start(fmt, m) => Flight(StartHeader(s, fmt, m), m.payload, 0) case Continue(csid) => s.flights[csid]
  }

  function CsidOf(a: Action): u32 {
    match a case Start(_, m) => m.csid case Continue(csid) => csid
  }

  function HeadOctets(s: Sender, a: Action): seq<byte>
    requires Loadable(s, a) && 2 <= CsidOf(a) < CSIDS
  {
    match a
    case Start(fmt, m) => StartOctets(StartHeader(s, fmt, m), fmt, m.csid)
    case Continue(csid) => ContinueOctets(s.flights[csid].header, csid)
  }

  /** The octets of one chunk. */
  function Emit(lim: Limits, slack: nat, s: Sender, a: Action): seq<byte>
    requires SenderInv(lim, slack, s) && Permitted(lim, slack, s, a)
  {
    HeadOctets(s, a) + Portion(s.chunkSize, Loaded(s, a).payload, Loaded(s, a).sent)
  }

  /** The sender once the chunk is out. */
  function Sent(lim: Limits, slack: nat, s: Sender, a: Action): Sender
    requires SenderInv(lim, slack, s) && Permitted(lim, slack, s, a)
  {
    var f, c := Loaded(s, a), CsidOf(a);
    var sent := f.sent + Min(|f.payload| - f.sent, s.chunkSize);
    var last := s.last[c := f.header];
    if sent == |f.payload| then Sender(s.chunkSize, last, s.flights - {c})
    else Sender(s.chunkSize, last, s.flights[c := f.(sent := sent)])
  }

  /** The message the chunk completes. */
  function Completes(lim: Limits, slack: nat, s: Sender, a: Action): Option<Message>
    requires SenderInv(lim, slack, s) && Permitted(lim, slack, s, a)
  {
    var f := Loaded(s, a);
    if |f.payload| - f.sent <= s.chunkSize then Some(Message(CsidOf(a), f.header, f.payload)) else None
  }

  /** What completing a well-formed control message means to the sender itself. */
  function Effect(lim: Limits, s: Sender, m: Message): Sender {
    if !Retained(m.header.kind) || CheckPlacement(m).Some? || CheckControl(lim, m).Some? then s
    else if m.header.kind == SET_CHUNK_SIZE && |m.payload| == 4 then s.(chunkSize := U32(m.payload))
    else if m.header.kind == ABORT_MESSAGE && |m.payload| == 4 then s.(flights := s.flights - {U32(m.payload)})
    else s
  }

  function Next(lim: Limits, slack: nat, s: Sender, a: Action): Sender
    requires SenderInv(lim, slack, s) && Permitted(lim, slack, s, a)
  {
    var done := Completes(lim, slack, s, a);
    if done.Some? then Effect(lim, Sent(lim, slack, s, a), done.value) else Sent(lim, slack, s, a)
  }

  // ---- The sender keeps its invariant ------------------------------------------------------------------

  lemma {:induction false} BoundFewer(a: map<u32, Flight>, b: map<u32, Flight>, slack: nat, n: nat)
    requires n <= CSIDS && forall c :: c in a ==> c in b && a[c].header == b[c].header && a[c].payload == b[c].payload
    ensures SumBound(a, slack, n) <= SumBound(b, slack, n)
  {
    if n != 0 {
      BoundFewer(a, b, slack, n - 1);
    }
  }

  /** The flights an action leaves are among those it was allowed to load. */
  function LoadedFlights(s: Sender, a: Action): map<u32, Flight>
    requires Loadable(s, a)
  {
    s.flights[CsidOf(a) := Loaded(s, a)]
  }

  lemma LoadedRoom(lim: Limits, slack: nat, s: Sender, a: Action)
    requires SenderInv(lim, slack, s) && Permitted(lim, slack, s, a)
    ensures Room(lim, slack, LoadedFlights(s, a))
  {
    hide SumBound;
    if a.Continue? {
      assert s.flights[a.csid := s.flights[a.csid]] == s.flights;
    }
  }

  lemma SentInv(lim: Limits, slack: nat, s: Sender, a: Action)
    requires SenderInv(lim, slack, s) && Permitted(lim, slack, s, a)
    ensures SenderInv(lim, slack, Sent(lim, slack, s, a))
  {
    hide SumBound, DefinedKind, StartHeader;
    LoadedRoom(lim, slack, s, a);
    LoadedHeader(lim, slack, s, a);
    var s' := Sent(lim, slack, s, a);
    BoundFewer(s'.flights, LoadedFlights(s, a), slack, CSIDS);
    forall c | c in s'.flights ensures FlightOk(lim, s', c) {
      if c != CsidOf(a) {
        assert FlightOk(lim, s, c);
      }
    }
  }

  /** The announced length, kind and bounds of the loaded flight. */
  lemma LoadedHeader(lim: Limits, slack: nat, s: Sender, a: Action)
    requires SenderInv(lim, slack, s) && Permitted(lim, slack, s, a)
    ensures var f, c := Loaded(s, a), CsidOf(a);
            && 2 <= c < CSIDS && f.header.length == |f.payload| <= lim.maxMessageBytes && DefinedKind(f.header.kind)
            && f.sent <= |f.payload|
            && (a.Start? ==> f.header.kind == a.msg.kind && f.header.msid == a.msg.msid && f.header.timestamp == a.msg.timestamp)
  {
    hide SumBound, DefinedKind;
    if a.Continue? {
      assert FlightOk(lim, s, a.csid);
    }
  }

  lemma EffectInv(lim: Limits, slack: nat, s: Sender, m: Message)
    requires SenderInv(lim, slack, s)
    ensures SenderInv(lim, slack, Effect(lim, s, m))
  {
    hide SumBound, DefinedKind, U32;
    var s' := Effect(lim, s, m);
    BoundFewer(s'.flights, s.flights, slack, CSIDS);
    forall c | c in s'.flights ensures FlightOk(lim, s', c) {
      assert FlightOk(lim, s, c);
    }
  }

  lemma NextInv(lim: Limits, slack: nat, s: Sender, a: Action)
    requires SenderInv(lim, slack, s) && Permitted(lim, slack, s, a)
    ensures SenderInv(lim, slack, Next(lim, slack, s, a))
  {
    hide SenderInv, Sent, Permitted, Effect;
    SentInv(lim, slack, s, a);
    var done := Completes(lim, slack, s, a);
    if done.Some? {
      EffectInv(lim, slack, Sent(lim, slack, s, a), done.value);
    }
  }

  // ---- Schedules ---------------------------------------------------------------------------------------

  /** Every action of the schedule is permitted when its turn comes. */
  predicate Schedule(lim: Limits, slack: nat, s: Sender, actions: seq<Action>)
    requires SenderInv(lim, slack, s)
    decreases |actions|
  {
    actions == [] ||
    (Permitted(lim, slack, s, actions[0]) &&
     (NextInv(lim, slack, s, actions[0]); Schedule(lim, slack, Next(lim, slack, s, actions[0]), actions[1..])))
  }

  function Wire(lim: Limits, slack: nat, s: Sender, actions: seq<Action>): seq<byte>
    requires SenderInv(lim, slack, s) && Schedule(lim, slack, s, actions)
    decreases |actions|
  {
    if actions == [] then []
    else
      NextInv(lim, slack, s, actions[0]);
      Emit(lim, slack, s, actions[0]) + Wire(lim, slack, Next(lim, slack, s, actions[0]), actions[1..])
  }

  /** The retained messages a schedule completes, in completion order. */
  function Completed(lim: Limits, slack: nat, s: Sender, actions: seq<Action>): seq<Message>
    requires SenderInv(lim, slack, s) && Schedule(lim, slack, s, actions)
    decreases |actions|
  {
    if actions == [] then []
    else
      NextInv(lim, slack, s, actions[0]);
      var done := Completes(lim, slack, s, actions[0]);
      (if done.Some? && Retained(done.value.header.kind) then [done.value] else []) +
      Completed(lim, slack, Next(lim, slack, s, actions[0]), actions[1..])
  }

  function Final(lim: Limits, slack: nat, s: Sender, actions: seq<Action>): Sender
    requires SenderInv(lim, slack, s) && Schedule(lim, slack, s, actions)
    decreases |actions|
  {
    if actions == [] then s
    else
      NextInv(lim, slack, s, actions[0]);
      Final(lim, slack, Next(lim, slack, s, actions[0]), actions[1..])
  }

  // ---- What completes is what was started ----------------------------------------------------------------

  /** A completed message is this message: chunk stream, kind, message stream, timestamp and payload. */
  predicate Carries(m: Message, msg: Msg) {
    && m.csid == msg.csid && m.header.kind == msg.kind && m.header.msid == msg.msid && m.header.timestamp == msg.timestamp
    && m.payload == msg.payload && m.header.length == |msg.payload|
  }

  ghost predicate Started(actions: seq<Action>, m: Message) {
    exists i :: 0 <= i < |actions| && actions[i].Start? && Carries(m, actions[i].msg)
  }

  ghost predicate InFlight(s: Sender, m: Message) {
    m.csid in s.flights && s.flights[m.csid].header == m.header && s.flights[m.csid].payload == m.payload
  }

  lemma LoadedStarted(lim: Limits, slack: nat, s: Sender, a: Action)
    requires SenderInv(lim, slack, s) && Permitted(lim, slack, s, a)
    ensures var m := Message(CsidOf(a), Loaded(s, a).header, Loaded(s, a).payload);
            InFlight(s, m) || (a.Start? && Carries(m, a.msg))
  {
    hide SenderInv, SumBound, DefinedKind;
    LoadedHeader(lim, slack, s, a);
  }

  lemma NextFlight(lim: Limits, slack: nat, s: Sender, a: Action, m: Message)
    requires SenderInv(lim, slack, s) && Permitted(lim, slack, s, a) && InFlight(Next(lim, slack, s, a), m)
    ensures InFlight(s, m) || (a.Start? && Carries(m, a.msg))
  {
    hide SenderInv, SumBound, StartHeader, Permitted, Compressible, CheckControl, CheckPlacement, Retained, U32;
    LoadedStarted(lim, slack, s, a);
  }

  /** Every message a schedule completes was started by it, or was in flight before. */
  lemma {:induction false} CompletedStarted(lim: Limits, slack: nat, s: Sender, actions: seq<Action>, m: Message)
    requires SenderInv(lim, slack, s) && Schedule(lim, slack, s, actions) && m in Completed(lim, slack, s, actions)
    ensures Started(actions, m) || InFlight(s, m)
    decreases |actions|
  {
    hide SenderInv, Permitted, Next, Loaded, Carries, InFlight, Retained;
    var a := actions[0];
    NextInv(lim, slack, s, a);
    LoadedStarted(lim, slack, s, a);
    var s' := Next(lim, slack, s, a);
    if m in Completed(lim, slack, s', actions[1..]) {
      CompletedStarted(lim, slack, s', actions[1..], m);
      if InFlight(s', m) {
        NextFlight(lim, slack, s, a, m);
      } else {
        var i :| 0 <= i < |actions[1..]| && actions[1..][i].Start? && Carries(m, actions[1..][i].msg);
        assert actions[i + 1] == actions[1..][i];
      }
    }
  }
}
