/** Chunk heads, octet for octet: what is read is exactly what some layout writes. */
module RtmpHeads {
  import opened Octets
  import opened RtmpMedia
  import opened RtmpChunks
  import opened RtmpSender
  import opened RtmpRoundTrip
  import opened RtmpForms
  import opened RtmpStanding

  // ---- Layouts ------------------------------------------------------------------------------------

  /** What a message header may carry. Formats 1 to 3 leave out more and more of it. */
  datatype Fields = Fields(raw: nat, length: nat, kind: byte, msid: u32, value: u32) {
    predicate Fit() {
      raw < 0x100_0000 && length < 0x100_0000
    }

    /** The timestamp or difference: the 24-bit field, or 32 bits after the header where that is all ones. */
    function Told(): u32
      requires Fit()
    {
      if raw == 0xff_ffff then value else raw
    }
  }

  /** Chunk stream ids fit one octet below 64, two below 320, and three up to 65599; the larger forms start at 64. */
  predicate BasicFits(fmt: nat, csid: u32, width: nat) {
    fmt < 4 && ((width == 1 && 2 <= csid < 64) || (width == 2 && 64 <= csid < 320) || (width == 3 && 64 <= csid < 65_600))
  }

  function BasicWritten(fmt: nat, csid: u32, width: nat): (s: seq<byte>)
    requires BasicFits(fmt, csid, width)
    ensures |s| == width
  {
    if width == 1 then [fmt * 64 + csid]
    else if width == 2 then [fmt * 64, csid - 64]
    else [fmt * 64 + 1, (csid - 64) % 256, (csid - 64) / 256]
  }

  function FieldOctets(fmt: nat, f: Fields): seq<byte> {
    (if fmt <= 2 then BigEndian(3, f.raw) else []) + (if fmt <= 1 then BigEndian(3, f.length) + [f.kind] else []) +
    (if fmt == 0 then U32LittleOctets(f.msid) else [])
  }

  /** Whether 32 more bits follow: as the 24-bit field says, or in format 3 as they did last time. */
  predicate Extends(last: Option<Header>, fmt: nat, f: Fields) {
    if fmt == 3 then last.Some? && last.value.extended else f.raw == 0xff_ffff
  }

  function HeadWritten(last: Option<Header>, fmt: nat, csid: u32, width: nat, f: Fields): seq<byte>
    requires BasicFits(fmt, csid, width)
  {
    BasicWritten(fmt, csid, width) + FieldOctets(fmt, f) + if Extends(last, fmt, f) then BigEndian(4, f.value) else []
  }

  /** The header a chunk announces. Formats 1 to 3 need one before them; a format 3 chunk inside a message repeats that, and one
      that starts a message advances it; either must repeat the extended timestamp. */
  predicate Announces(last: Option<Header>, continuing: bool, fmt: nat, f: Fields, h: Header)
    requires f.Fit()
  {
    if fmt == 0 then h == Header(f.Told(), f.Told(), f.length, f.kind, f.msid, f.raw == 0xff_ffff, true)
    else
      && last.Some?
      && var l := last.value;
         if fmt == 3 then
           && h == (if continuing then l else l.(timestamp := (l.timestamp + l.delta) % TWO32, absolute := false))
           && (l.extended ==> f.value == if continuing && l.absolute then l.timestamp else l.delta)
         else
           h == Header((l.timestamp + f.Told()) % TWO32, f.Told(), if fmt == 1 then f.length else l.length, if fmt == 1 then f.kind else l.kind, l.msid,
                       f.raw == 0xff_ffff, false)
  }

  /** The octets at `off` are a head laid out this way. */
  ghost predicate HeadAt(d: Decoder, b: seq<byte>, off: nat, head: Head, width: nat, f: Fields) {
    && BasicFits(head.fmt, head.csid, width) && f.Fit()
    && Announces(d.Last(head.csid), d.Flight(head.csid).Some?, head.fmt, f, head.header)
    && At(b, off, HeadWritten(d.Last(head.csid), head.fmt, head.csid, width, f))
    && head.next == off + |HeadWritten(d.Last(head.csid), head.fmt, head.csid, width, f)|
  }

  // ---- Written heads are read back ---------------------------------------------------------------------

  lemma BasicReadsBack(b: seq<byte>, off: nat, fmt: nat, csid: u32, width: nat)
    requires BasicFits(fmt, csid, width) && At(b, off, BasicWritten(fmt, csid, width))
    ensures off <= |b| && BasicHeader(b, off) == Ok((fmt, csid, width))
  {
    var s := BasicWritten(fmt, csid, width);
    AtIndex(b, off, s, 0);
    if width > 1 {
      AtIndex(b, off, s, 1);
    }
    if width > 2 {
      AtIndex(b, off, s, 2);
    }
  }

  lemma FieldsReadBack(b: seq<byte>, off: nat, fmt: nat, f: Fields)
    requires fmt < 4 && f.Fit() && At(b, off, FieldOctets(fmt, f))
    ensures |FieldOctets(fmt, f)| == HeaderLength(fmt) && off + HeaderLength(fmt) <= |b|
    ensures fmt <= 2 ==> U24(b[off..]) == f.raw
    ensures fmt <= 1 ==> U24(b[off + 3..]) == f.length && b[off + 6] == f.kind
    ensures fmt == 0 ==> U32Little(b[off + 7..]) == f.msid
  {
    hide U24, U32Little, BigEndian, U32LittleOctets;
    var raw := if fmt <= 2 then BigEndian(3, f.raw) else [];
    var middle := if fmt <= 1 then BigEndian(3, f.length) + [f.kind] else [];
    var msid := if fmt == 0 then U32LittleOctets(f.msid) else [];
    AtSplit(b, off, raw + middle, msid);
    AtSplit(b, off, raw, middle);
    if fmt <= 2 {
      U24At(b, off, f.raw);
    }
    if fmt <= 1 {
      AtSplit(b, off + 3, BigEndian(3, f.length), [f.kind]);
      U24At(b, off + 3, f.length);
      AtIndex(b, off + 6, [f.kind], 0);
    }
    if fmt == 0 {
      U32LittleAt(b, off + 7, f.msid);
    }
  }

  /** The header before any extended timestamp is applied. */
  lemma PlainHeader(last: Option<Header>, continuing: bool, fmt: nat, f: Fields, h: Header, b: seq<byte>, off: nat)
    requires fmt < 4 && off <= |b| && off + HeaderLength(fmt) <= |b| && f.Fit() && Announces(last, continuing, fmt, f, h)
    requires fmt <= 2 ==> U24(b[off..]) == f.raw
    requires fmt <= 1 ==> U24(b[off + 3..]) == f.length && b[off + 6] == f.kind
    requires fmt == 0 ==> U32Little(b[off + 7..]) == f.msid
    ensures var r := MessageHeader(fmt, last, b, off, continuing);
            && r.Ok? && r.value.extended == Extends(last, fmt, f)
            && (if Extends(last, fmt, f) then ApplyExtended(fmt, last, r.value, f.value, continuing) == Ok(h) else r.value == h)
  {
    hide U24, U32Little;
  }

  lemma HeadReadsBack(d: Decoder, b: seq<byte>, off: nat, head: Head, width: nat, f: Fields)
    requires off <= |b| && HeadAt(d, b, off, head, width, f)
    ensures ReadHead(d, b, off) == Ok(head)
  {
    hide BasicHeader, MessageHeader, ApplyExtended, U32, Announces, BasicWritten, FieldOctets, BigEndian;
    var last, continuing := d.Last(head.csid), d.Flight(head.csid).Some?;
    var basic, fields := BasicWritten(head.fmt, head.csid, width), FieldOctets(head.fmt, f);
    var more := if Extends(last, head.fmt, f) then BigEndian(4, f.value) else [];
    AtSplit(b, off, basic + fields, more);
    AtSplit(b, off, basic, fields);
    BasicReadsBack(b, off, head.fmt, head.csid, width);
    FieldsReadBack(b, off + width, head.fmt, f);
    PlainHeader(last, continuing, head.fmt, f, head.header, b, off + width);
    if Extends(last, head.fmt, f) {
      U32At(b, off + width + HeaderLength(head.fmt), f.value);
    }
  }

  // ---- Whatever is read was written ---------------------------------------------------------------------

  lemma BasicWasWritten(b: seq<byte>, off: nat)
    requires off <= |b| && BasicHeader(b, off).Ok?
    ensures var (fmt, csid, width) := BasicHeader(b, off).value;
            BasicFits(fmt, csid, width) && At(b, off, BasicWritten(fmt, csid, width))
  {
    var (fmt, csid, width) := BasicHeader(b, off).value;
    assert b[off] == fmt * 64 + b[off] % 64;
    if width == 1 {
      assert b[off..off + 1] == [b[off]];
    } else if width == 2 {
      assert b[off..off + 2] == [b[off], b[off + 1]];
    } else {
      WideLength(b[off + 2], b[off + 1]);
      assert b[off..off + 3] == [b[off], b[off + 1], b[off + 2]];
    }
  }

  lemma LittleWritten(p: seq<byte>, at: nat)
    requires at + 4 <= |p|
    ensures p[at..at + 4] == U32LittleOctets(U32Little(p[at..]))
  {
    var b := p[at..];
    var v := U32Little(b);
    var h2: int := b[3] as int * 256 + b[2] as int;
    var h1: int := h2 * 256 + b[1] as int;
    assert v == h1 * 256 + b[0] as int;
    assert v / 256 == h1 && v % 256 == b[0];
    assert h1 / 256 == h2 && h1 % 256 == b[1];
    assert h2 / 256 == b[3] && h2 % 256 == b[2];
    hide U32Little;
    assert p[at..at + 4] == [b[0], b[1], b[2], b[3]];
  }

  /** The fields found at `off`. */
  function FieldsFound(fmt: nat, b: seq<byte>, off: nat, value: u32): (f: Fields)
    requires off + HeaderLength(fmt) <= |b|
    ensures f.Fit()
  {
    Fields(if fmt <= 2 then U24(b[off..]) else 0, if fmt <= 1 then U24(b[off + 3..]) else 0, if fmt <= 1 then b[off + 6] else 0,
           if fmt == 0 then U32Little(b[off + 7..]) else 0, value)
  }

  lemma FieldsWereWritten(fmt: nat, b: seq<byte>, off: nat, value: u32)
    requires fmt < 4 && off + HeaderLength(fmt) <= |b|
    ensures At(b, off, FieldOctets(fmt, FieldsFound(fmt, b, off, value)))
    ensures |FieldOctets(fmt, FieldsFound(fmt, b, off, value))| == HeaderLength(fmt)
  {
    var f := FieldsFound(fmt, b, off, value);
    if fmt <= 2 {
      U24Written(b, off);
      if fmt <= 1 {
        U24Written(b, off + 3);
        assert b[off + 6..off + 7] == [f.kind];
        Cut(b, off, off + 3, off + 7);
        Cut(b, off + 3, off + 6, off + 7);
      }
      if fmt == 0 {
        LittleWritten(b, off + 7);
        Cut(b, off, off + 7, off + 11);
      }
    }
    hide U24, U32Little, BigEndian, U32LittleOctets;
  }

  lemma AnnouncedBy(last: Option<Header>, continuing: bool, fmt: nat, b: seq<byte>, off: nat, value: u32)
    requires fmt < 4 && off <= |b| && MessageHeader(fmt, last, b, off, continuing).Ok?
    ensures off + HeaderLength(fmt) <= |b|
    ensures var h, f := MessageHeader(fmt, last, b, off, continuing).value, FieldsFound(fmt, b, off, value);
            && h.extended == Extends(last, fmt, f)
            && (!h.extended ==> Announces(last, continuing, fmt, f, h))
            && (h.extended && ApplyExtended(fmt, last, h, value, continuing).Ok? ==>
                  Announces(last, continuing, fmt, f, ApplyExtended(fmt, last, h, value, continuing).value))
  {
    hide U24, U32Little;
  }

  lemma JoinAt(b: seq<byte>, off: nat, a: seq<byte>, c: seq<byte>)
    requires At(b, off, a) && At(b, off + |a|, c)
    ensures At(b, off, a + c)
  {
    Cut(b, off, off + |a|, off + |a| + |c|);
  }

  lemma HeadWasWritten(d: Decoder, b: seq<byte>, off: nat) returns (width: nat, f: Fields)
    requires off <= |b| && ReadHead(d, b, off).Ok?
    ensures HeadAt(d, b, off, ReadHead(d, b, off).value, width, f)
  {
    hide BasicHeader, MessageHeader, ApplyExtended, Announces, BasicWritten, FieldOctets, FieldsFound, U32, BigEndian;
    var head := ReadHead(d, b, off).value;
    BasicWasWritten(b, off);
    width := BasicHeader(b, off).value.2;
    var at := off + width + HeaderLength(head.fmt);
    var last, continuing := d.Last(head.csid), d.Flight(head.csid).Some?;
    var extended := MessageHeader(head.fmt, last, b, off + width, continuing).value.extended;
    var value := if extended then U32(b[at..]) else 0;
    AnnouncedBy(last, continuing, head.fmt, b, off + width, value);
    FieldsWereWritten(head.fmt, b, off + width, value);
    f := FieldsFound(head.fmt, b, off + width, value);
    ValueKept(head.fmt, b, off + width, value);
    var basic, fields := BasicWritten(head.fmt, head.csid, width), FieldOctets(head.fmt, f);
    JoinAt(b, off, basic, fields);
    if extended {
      U32Written(b, at);
      JoinAt(b, off, basic + fields, BigEndian(4, f.value));
    } else {
      assert basic + fields + [] == basic + fields;
    }
  }

  lemma ValueKept(fmt: nat, b: seq<byte>, off: nat, value: u32)
    requires off + HeaderLength(fmt) <= |b|
    ensures FieldsFound(fmt, b, off, value).value == value
  {
  }

  /** A chunk head is read as this one exactly if it is laid out as this one in some way. */
  lemma HeadExact(d: Decoder, b: seq<byte>, off: nat, head: Head)
    requires off <= |b|
    ensures ReadHead(d, b, off) == Ok(head) <==> exists width, f :: HeadAt(d, b, off, head, width, f)
  {
    hide ReadHead, HeadAt;
    if ReadHead(d, b, off) == Ok(head) {
      var width, f := HeadWasWritten(d, b, off);
    }
    forall width, f | HeadAt(d, b, off, head, width, f) ensures ReadHead(d, b, off) == Ok(head) {
      HeadReadsBack(d, b, off, head, width, f);
    }
  }
}
