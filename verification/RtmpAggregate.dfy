/** An Aggregate message means what its tags mean as messages of their own. */
module RtmpAggregate {
  import opened Octets
  import opened RtmpMedia
  import opened RtmpChunks
  import opened RtmpSender
  import opened RtmpRoundTrip

  /** A tag inside an Aggregate. Its stream id is carried but never read. */
  datatype Tag = Tag(kind: byte, timestamp: u32, streamId: nat, body: seq<byte>)

  predicate TagOk(lim: Limits, t: Tag) {
    && |t.body| < 0x100_0000 && |t.body| <= lim.maxMessageBytes && t.streamId < 0x100_0000
    && t.kind in {AUDIO_MESSAGE, VIDEO_MESSAGE, AMF3_SCRIPT_DATA, AMF0_SCRIPT_DATA}
  }

  function TagHead(t: Tag): (s: seq<byte>)
    requires |t.body| < 0x100_0000 && t.streamId < 0x100_0000
    ensures |s| == 11
  {
    [t.kind] + BigEndian(3, |t.body|) + BigEndian(3, t.timestamp % 0x100_0000) + [t.timestamp / 0x100_0000] + BigEndian(3, t.streamId)
  }

  function TagOctets(t: Tag): (s: seq<byte>)
    requires |t.body| < 0x100_0000 && t.streamId < 0x100_0000
    ensures |s| == 15 + |t.body|
  {
    TagHead(t) + t.body + BigEndian(4, 11 + |t.body|)
  }

  function AggregateOctets(lim: Limits, tags: seq<Tag>): seq<byte>
    requires forall t :: t in tags ==> TagOk(lim, t)
  {
    if tags == [] then []
    else
      assert TagOk(lim, tags[0]);
      TagOctets(tags[0]) + AggregateOctets(lim, tags[1..])
  }

  /** The message of a tag: on the Aggregate's streams, its timestamp moved so that the first tag has the Aggregate's. */
  ghost predicate Unbundled(agg: Message, first: u32, t: Tag, m: Message) {
    && m.csid == agg.csid && m.header.msid == agg.header.msid && m.header.kind == t.kind && m.payload == t.body
    && m.header.timestamp == (agg.header.timestamp + t.timestamp - first) % TWO32
  }

  ghost predicate Unbundles(agg: Message, first: u32, tags: seq<Tag>, ms: seq<Message>) {
    |ms| == |tags| && forall i :: 0 <= i < |tags| ==> Unbundled(agg, first, tags[i], ms[i])
  }

  lemma TagHeadReads(b: seq<byte>, off: nat, t: Tag)
    requires |t.body| < 0x100_0000 && t.streamId < 0x100_0000 && At(b, off, TagHead(t))
    ensures off + 11 <= |b| && b[off] == t.kind && U24(b[off + 1..]) == |t.body| && TagTimestamp(b[off + 4..]) == t.timestamp
  {
    var size, low, high := BigEndian(3, |t.body|), BigEndian(3, t.timestamp % 0x100_0000), [t.timestamp / 0x100_0000];
    var id := BigEndian(3, t.streamId);
    assert TagHead(t) == [t.kind] + (size + (low + (high + id)));
    AtSplit(b, off, [t.kind], size + (low + (high + id)));
    AtSplit(b, off + 1, size, low + (high + id));
    AtSplit(b, off + 4, low, high + id);
    AtSplit(b, off + 7, high, id);
    AtIndex(b, off, [t.kind], 0);
    U24At(b, off + 1, |t.body|);
    U24At(b, off + 4, t.timestamp % 0x100_0000);
    AtIndex(b, off + 7, high, 0);
  }

  lemma TagReads(b: seq<byte>, off: nat, t: Tag)
    requires |t.body| < 0x100_0000 && t.streamId < 0x100_0000 && At(b, off, TagOctets(t))
    ensures off + 15 + |t.body| <= |b| && b[off] == t.kind && U24(b[off + 1..]) == |t.body|
    ensures TagTimestamp(b[off + 4..]) == t.timestamp
    ensures b[off + 11..off + 11 + |t.body|] == t.body && U32(b[off + 11 + |t.body|..]) == 11 + |t.body|
  {
    hide TagHead, U24, U32, TagTimestamp, BigEndian;
    var trailer := BigEndian(4, 11 + |t.body|);
    assert TagOctets(t) == TagHead(t) + (t.body + trailer);
    AtSplit(b, off, TagHead(t), t.body + trailer);
    AtSplit(b, off + 11, t.body, trailer);
    TagHeadReads(b, off, t);
    U32At(b, off + 11 + |t.body|, 11 + |t.body|);
  }

  /** Parsing one tag is interpreting its message. */
  lemma TagIsMessage(amf: Amf, lim: Limits, media: Media, agg: Message, first: u32, t: Tag, m: Message)
    requires TagOk(lim, t) && Unbundled(agg, first, t, m) && agg.csid != CONTROL_CSID && agg.header.msid != 0
    ensures var o := Origin(Normalized(agg.header.timestamp, t.timestamp, first), agg.csid, Some(agg.header.msid));
            var p := ParseTag(amf, lim, media, t.kind, t.body, o);
            Interpret(amf, lim, media, m) == if p.Err? then Err(InMedia(p.error)) else Ok(p.value)
  {
    hide ParseAudio, ParseVideo, ParseAggregate;
  }

  /** The tags from `off` on, once the first timestamp is known. */
  lemma {:induction false} TagsAreMessages(amf: Amf, lim: Limits, media: Media, agg: Message, first: u32, known: Option<u32>,
                                           tags: seq<Tag>, ms: seq<Message>, b: seq<byte>, off: nat)
    requires (forall t :: t in tags ==> TagOk(lim, t)) && Unbundles(agg, first, tags, ms)
    requires known == Some(first) || (known == None && (tags != [] ==> first == tags[0].timestamp))
    requires agg.csid != CONTROL_CSID && agg.header.msid != 0
    requires At(b, off, AggregateOctets(lim, tags)) && off + |AggregateOctets(lim, tags)| == |b|
    ensures var p := ParseAggregate(amf, lim, media, b, off, known, Origin(agg.header.timestamp, agg.csid, Some(agg.header.msid)));
            InterpretAll(amf, lim, media, ms) == if p.Err? then Err(InMedia(p.error)) else Ok(p.value)
    decreases |tags|
  {
    hide ParseTag, Interpret, TagOctets, U24, U32, TagTimestamp, Normalized;
    if tags != [] {
      var t, rest := tags[0], AggregateOctets(lim, tags[1..]);
      assert TagOk(lim, t) && Unbundled(agg, first, tags[0], ms[0]);
      AtSplit(b, off, TagOctets(t), rest);
      TagReads(b, off, t);
      TagIsMessage(amf, lim, media, agg, first, t, ms[0]);
      var next := Interpret(amf, lim, media, ms[0]);
      if next.Ok? {
        TagsAreMessages(amf, lim, next.value, agg, first, Some(first), tags[1..], ms[1..], b, off + 15 + |t.body|);
      }
    }
  }

  /** For every list of tags: the Aggregate has the same events, contexts, bindings and account, or the same error, as its
      tags sent one by one at the normalized timestamps. On a reserved stream it is refused. */
  lemma AggregateMeaning(amf: Amf, lim: Limits, media: Media, agg: Message, tags: seq<Tag>, ms: seq<Message>)
    requires (forall t :: t in tags ==> TagOk(lim, t)) && agg.header.kind == AGGREGATE_MESSAGE
    requires agg.payload == AggregateOctets(lim, tags)
    requires tags != [] ==> Unbundles(agg, tags[0].timestamp, tags, ms)
    requires tags == [] ==> ms == []
    ensures agg.csid != CONTROL_CSID && agg.header.msid != 0 ==>
              Interpret(amf, lim, media, agg) == InterpretAll(amf, lim, media, ms)
    ensures agg.csid == CONTROL_CSID || agg.header.msid == 0 ==> Interpret(amf, lim, media, agg) == Err(MediaPlacement)
  {
    hide ParseAggregate, AggregateOctets, InterpretAll, TagOk;
    if agg.csid != CONTROL_CSID && agg.header.msid != 0 {
      TagsAreMessages(amf, lim, media, agg, if tags == [] then 0 else tags[0].timestamp, None, tags, ms, agg.payload, 0);
    }
  }

  // ---- On the wire --------------------------------------------------------------------------------------

  /** The messages a decoder hands on. Script data is dropped by the chunk layer. */
  function RetainedOnly(ms: seq<Message>): seq<Message> {
    if ms == [] then [] else (if Retained(ms[0].header.kind) then [ms[0]] else []) + RetainedOnly(ms[1..])
  }

  /** Dropping unretained messages changes nothing. */
  lemma {:induction false} DroppedMeanNothing(amf: Amf, lim: Limits, media: Media, ms: seq<Message>)
    requires forall m :: m in ms ==> Retained(m.header.kind) || m.header.kind in {AMF3_SCRIPT_DATA, AMF0_SCRIPT_DATA}
    ensures InterpretAll(amf, lim, media, RetainedOnly(ms)) == InterpretAll(amf, lim, media, ms)
    decreases |ms|
  {
    if ms != [] {
      hide ParseAudio, ParseVideo, ParseAggregate;
      var rest := RetainedOnly(ms[1..]);
      if Retained(ms[0].header.kind) {
        assert ([ms[0]] + rest)[1..] == rest;
        hide Interpret;
        if Interpret(amf, lim, media, ms[0]).Ok? {
          DroppedMeanNothing(amf, lim, Interpret(amf, lim, media, ms[0]).value, ms[1..]);
        }
      } else {
        assert [] + rest == rest;
        assert Interpret(amf, lim, media, ms[0]) == Ok(media);
        DroppedMeanNothing(amf, lim, media, ms[1..]);
      }
    }
  }

  lemma {:induction false} InterpretInTurn(amf: Amf, lim: Limits, media: Media, a: seq<Message>, b: seq<Message>)
    ensures var first := InterpretAll(amf, lim, media, a);
            InterpretAll(amf, lim, media, a + b) == if first.Err? then first else InterpretAll(amf, lim, first.value, b)
    decreases |a|
  {
    hide Interpret;
    if a == [] {
      assert a + b == b;
    } else {
      assert (a + b)[1..] == a[1..] + b;
      if Interpret(amf, lim, media, a[0]).Ok? {
        InterpretInTurn(amf, lim, Interpret(amf, lim, media, a[0]).value, a[1..], b);
      }
    }
  }

  /** Messages that agree in all that interpreting reads. How their headers were compressed does not matter. */
  predicate Alike(m: Message, n: Message) {
    && m.csid == n.csid && m.payload == n.payload
    && m.header.timestamp == n.header.timestamp && m.header.kind == n.header.kind && m.header.msid == n.header.msid
  }

  predicate AllAlike(a: seq<Message>, b: seq<Message>) {
    |a| == |b| && forall i :: 0 <= i < |a| ==> Alike(a[i], b[i])
  }

  lemma AlikeMeansSame(amf: Amf, lim: Limits, media: Media, m: Message, n: Message)
    requires Alike(m, n)
    ensures Interpret(amf, lim, media, m) == Interpret(amf, lim, media, n)
  {
    hide ParseAudio, ParseVideo, ParseAggregate, U32;
  }

  lemma {:induction false} AllAlikeMeanSame(amf: Amf, lim: Limits, media: Media, a: seq<Message>, b: seq<Message>)
    requires AllAlike(a, b)
    ensures InterpretAll(amf, lim, media, a) == InterpretAll(amf, lim, media, b)
    decreases |a|
  {
    hide Interpret, Alike;
    if a != [] {
      AlikeMeansSame(amf, lim, media, a[0], b[0]);
      if Interpret(amf, lim, media, a[0]).Ok? {
        AllAlikeMeanSame(amf, lim, Interpret(amf, lim, media, a[0]).value, a[1..], b[1..]);
      }
    }
  }

  /** Messages before and after that are alike, around parts that mean the same. */
  lemma InterpretMiddle(amf: Amf, lim: Limits, media: Media, before: seq<Message>, a: seq<Message>, after: seq<Message>,
                        before': seq<Message>, b: seq<Message>, after': seq<Message>)
    requires AllAlike(before, before') && AllAlike(after, after')
    requires forall m: Media :: InterpretAll(amf, lim, m, a) == InterpretAll(amf, lim, m, b)
    ensures InterpretAll(amf, lim, media, before + a + after) == InterpretAll(amf, lim, media, before' + b + after')
  {
    hide InterpretAll, AllAlike;
    InterpretInTurn(amf, lim, media, before + a, after);
    InterpretInTurn(amf, lim, media, before' + b, after');
    InterpretInTurn(amf, lim, media, before, a);
    InterpretInTurn(amf, lim, media, before', b);
    AllAlikeMeanSame(amf, lim, media, before, before');
    var middle := InterpretAll(amf, lim, media, before + a);
    if middle.Ok? {
      AllAlikeMeanSame(amf, lim, middle.value, after, after');
    }
  }

  lemma InterpretOne(amf: Amf, lim: Limits, media: Media, m: Message)
    ensures InterpretAll(amf, lim, media, [m]) == Interpret(amf, lim, media, m)
  {
    hide Interpret;
    assert [m][1..] == [];
  }

  lemma UnbundledKinds(lim: Limits, agg: Message, first: u32, tags: seq<Tag>, ms: seq<Message>)
    requires (forall t :: t in tags ==> TagOk(lim, t)) && Unbundles(agg, first, tags, ms)
    ensures forall m :: m in ms ==> Retained(m.header.kind) || m.header.kind in {AMF3_SCRIPT_DATA, AMF0_SCRIPT_DATA}
  {
    forall m | m in ms ensures Retained(m.header.kind) || m.header.kind in {AMF3_SCRIPT_DATA, AMF0_SCRIPT_DATA} {
      var i :| 0 <= i < |ms| && ms[i] == m;
      assert Unbundled(agg, first, tags[i], ms[i]) && TagOk(lim, tags[i]);
    }
  }

  /** Two wires of one connection, one sending the Aggregate and one its tags as messages, decode alike. The messages around
      them need to agree in meaning only, since later headers may be compressed against the Aggregate or against its tags. */
  lemma AggregateOnWire(amf: Amf, lim: Limits, slack: nat, alloc: Allocator, chunkSize: nat, media: Media, bundled: seq<Action>,
                        separate: seq<Action>, before: seq<Message>, agg: Message, after: seq<Message>, tags: seq<Tag>,
                        before': seq<Message>, ms: seq<Message>, after': seq<Message>)
    requires Frugal(alloc, slack) && chunkSize >= 1 && SenderInv(lim, slack, Sender(chunkSize, map[], map[]))
    requires var s := Sender(chunkSize, map[], map[]);
             && Schedule(lim, slack, s, bundled) && Final(lim, slack, s, bundled).flights == map[]
             && Schedule(lim, slack, s, separate) && Final(lim, slack, s, separate).flights == map[]
             && Completed(lim, slack, s, bundled) == before + [agg] + after
             && Completed(lim, slack, s, separate) == before' + RetainedOnly(ms) + after'
    requires AllAlike(before, before') && AllAlike(after, after')
    requires (forall t :: t in tags ==> TagOk(lim, t)) && agg.header.kind == AGGREGATE_MESSAGE
    requires agg.csid != CONTROL_CSID && agg.header.msid != 0 && agg.payload == AggregateOctets(lim, tags)
    requires Unbundles(agg, if tags == [] then 0 else tags[0].timestamp, tags, ms)
    ensures var s, w := Sender(chunkSize, map[], map[]), World(Fresh(chunkSize), media);
            var p, q := DecodeFrom(amf, lim, alloc, w, Wire(lim, slack, s, bundled), 0), DecodeFrom(amf, lim, alloc, w, Wire(lim, slack, s, separate), 0);
            if p.Err? then q == Err(p.error) else q.Ok? && q.value.media == p.value.media
  {
    BundledMeansSeparate(amf, lim, agg, tags, ms);
    hide DecodeFrom, HandedOn, InterpretAll, Schedule, Final, Completed, Wire, SenderInv, Interpret, TagOk, Unbundles, AggregateOctets,
         RetainedOnly, InFlightOk, Retained, Heard, AllAlike;
    InterpretMiddle(amf, lim, media, before, [agg], after, before', RetainedOnly(ms), after');
    ConnectionRoundTrip(amf, lim, slack, alloc, chunkSize, media, bundled);
    ConnectionRoundTrip(amf, lim, slack, alloc, chunkSize, media, separate);
  }

  lemma BundledMeansSeparate(amf: Amf, lim: Limits, agg: Message, tags: seq<Tag>, ms: seq<Message>)
    requires (forall t :: t in tags ==> TagOk(lim, t)) && agg.header.kind == AGGREGATE_MESSAGE
    requires agg.csid != CONTROL_CSID && agg.header.msid != 0 && agg.payload == AggregateOctets(lim, tags)
    requires Unbundles(agg, if tags == [] then 0 else tags[0].timestamp, tags, ms)
    ensures forall m: Media :: InterpretAll(amf, lim, m, [agg]) == InterpretAll(amf, lim, m, RetainedOnly(ms))
  {
    var first := if tags == [] then 0 else tags[0].timestamp;
    UnbundledKinds(lim, agg, first, tags, ms);
    assert tags == [] ==> ms == [];
    hide InterpretAll, Interpret, TagOk, Unbundles, AggregateOctets, RetainedOnly, Retained;
    forall m: Media ensures InterpretAll(amf, lim, m, [agg]) == InterpretAll(amf, lim, m, RetainedOnly(ms)) {
      InterpretOne(amf, lim, m, agg);
      AggregateMeaning(amf, lim, m, agg, tags, ms);
      DroppedMeanNothing(amf, lim, m, ms);
    }
  }
}
