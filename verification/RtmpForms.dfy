/** The forms a media message can take, how each is written, and what it says. Parsing accepts exactly the written forms. */
module RtmpForms {
  import opened Octets
  import opened ErtmpTypes
  import opened RtmpMedia
  import opened RtmpItems
  import opened RtmpRoundTrip
  import opened RtmpDigest

  // ---- Extensions ---------------------------------------------------------------------------------

  /** A timestamp-offset extension. Short lengths may be written in either width. */
  datatype Extension = Extension(wide: bool, data: seq<byte>) {
    predicate Ok() {
      3 <= |data| <= (if wide then 0x1_0000 else 255) && U24(data) < 1_000_000
    }

    function Octets(): seq<byte>
      requires Ok()
    {
      (if wide then [255, (|data| - 1) / 256, (|data| - 1) % 256] else [|data| - 1]) + data
    }
  }

  predicate ExtensionsOk(xs: seq<Extension>) {
    forall i :: 0 <= i < |xs| ==> xs[i].Ok()
  }

  /** The packet type as written before the extensions: 7 if any follow. */
  function Announced(xs: seq<Extension>, packet: nat): nat {
    if xs == [] then packet else 7
  }

  /** Each extension is followed by the packet type it announces. */
  function ExtensionsOctets(xs: seq<Extension>, packet: nat): seq<byte>
    requires ExtensionsOk(xs) && packet < 16
  {
    if xs == [] then [] else xs[0].Octets() + [Announced(xs[1..], packet)] + ExtensionsOctets(xs[1..], packet)
  }

  /** One turn of skipping. */
  lemma SkipOne(p: seq<byte>, off: nat, at: nat, length: nat)
    requires off < |p| && 3 <= length && at + length < |p| && p[at + length] < 16 && U24(p[at..]) < 1_000_000
    requires if p[off] == 255 then at == off + 3 && length == p[off + 1] as int * 256 + p[off + 2] as int + 1
             else at == off + 1 && length == p[off] as int + 1
    ensures SkipModEx(p, off, 7) == SkipModEx(p, at + length + 1, p[at + length])
  {
    hide U24;
    assert p[at + length] / 16 == 0 && p[at + length] % 16 == p[at + length];
  }

  lemma HeadReads(p: seq<byte>, off: nat, x: Extension)
    requires x.Ok() && At(p, off, x.Octets())
    ensures var at := off + |x.Octets()| - |x.data|;
            && off < |p| && off < at && at + |x.data| <= |p| && At(p, at, x.data)
            && (if p[off] == 255 then at == off + 3 && |x.data| == p[off + 1] as int * 256 + p[off + 2] as int + 1
                else at == off + 1 && |x.data| == p[off] as int + 1)
  {
    hide U24;
    var head := if x.wide then [255, (|x.data| - 1) / 256, (|x.data| - 1) % 256] else [|x.data| - 1];
    AtSplit(p, off, head, x.data);
    AtIndex(p, off, head, 0);
    if x.wide {
      AtIndex(p, off, head, 1);
      AtIndex(p, off, head, 2);
    }
  }

  lemma SameU24At(p: seq<byte>, at: nat, data: seq<byte>)
    requires |data| >= 3 && At(p, at, data)
    ensures at + 3 <= |p| && U24(p[at..]) == U24(data)
  {
    AtIndex(p, at, data, 0);
    AtIndex(p, at, data, 1);
    AtIndex(p, at, data, 2);
  }

  lemma ExtensionReads(p: seq<byte>, off: nat, x: Extension, next: byte)
    requires x.Ok() && At(p, off, x.Octets() + [next]) && next < 16
    ensures SkipModEx(p, off, 7) == SkipModEx(p, off + |x.Octets()| + 1, next)
  {
    hide U24, At, Extension.Octets, SkipModEx;
    AtSplit(p, off, x.Octets(), [next]);
    HeadReads(p, off, x);
    var at := off + |x.Octets()| - |x.data|;
    SameU24At(p, at, x.data);
    AtIndex(p, at + |x.data|, [next], 0);
    AtSlice(p, at + |x.data|, [next]);
    SkipOne(p, off, at, |x.data|);
  }

  /** Reading skips any extensions and finds the packet type after them. */
  lemma {:induction false} ExtensionsRead(p: seq<byte>, off: nat, xs: seq<Extension>, packet: nat)
    requires ExtensionsOk(xs) && packet < 16 && packet != 7 && At(p, off, ExtensionsOctets(xs, packet))
    ensures SkipModEx(p, off, Announced(xs, packet)) == Ok((packet, off + |ExtensionsOctets(xs, packet)|))
    decreases |xs|
  {
    hide SkipModEx, Extension.Octets, Extension.Ok, ExtensionsOk, At, ExtensionsOctets;
    if xs == [] {
      NoExtensions(p, off, packet);
    } else {
      FirstExtension(xs, packet);
      var first, next, rest := xs[0].Octets(), Announced(xs[1..], packet), ExtensionsOctets(xs[1..], packet);
      AtSplit(p, off, first + [next], rest);
      ExtensionReads(p, off, xs[0], next);
      ExtensionsRead(p, off + |first| + 1, xs[1..], packet);
    }
  }

  lemma NoExtensions(p: seq<byte>, off: nat, packet: nat)
    requires packet < 16 && packet != 7 && At(p, off, ExtensionsOctets([], packet))
    ensures off <= |p| && SkipModEx(p, off, packet) == Ok((packet, off)) && ExtensionsOctets([], packet) == []
  {
  }

  lemma FirstExtension(xs: seq<Extension>, packet: nat)
    requires xs != [] && ExtensionsOk(xs) && packet < 16
    ensures xs[0].Ok() && ExtensionsOk(xs[1..])
    ensures ExtensionsOctets(xs, packet) == (xs[0].Octets() + [Announced(xs[1..], packet)]) + ExtensionsOctets(xs[1..], packet)
  {
    hide Extension.Ok, Extension.Octets;
  }

  /** Where an accepted extension's data begin and how many there are. */
  lemma ExtensionBounds(p: seq<byte>, off: nat) returns (at: nat, length: nat)
    requires off <= |p| && SkipModEx(p, off, 7).Ok?
    ensures off < |p| && 3 <= length && off < at && at + length < |p| && p[at + length] < 16 && U24(p[at..]) < 1_000_000
    ensures if p[off] == 255 then at == off + 3 && length == p[off + 1] as int * 256 + p[off + 2] as int + 1
            else at == off + 1 && length == p[off] as int + 1
  {
    hide U24;
    at := if p[off] == 255 then off + 3 else off + 1;
    length := if p[off] == 255 then p[off + 1] as int * 256 + p[off + 2] as int + 1 else p[off] as int + 1;
  }

  lemma OneExtension(p: seq<byte>, off: nat) returns (x: Extension)
    requires off <= |p| && SkipModEx(p, off, 7).Ok?
    ensures x.Ok() && At(p, off, x.Octets())
    ensures off + |x.Octets()| < |p| && p[off + |x.Octets()|] < 16
  {
    var at, length := ExtensionBounds(p, off);
    hide SkipModEx;
    x := Extension(p[off] == 255, p[at..at + length]);
    SameU24At(p, at, x.data);
    hide U24;
    Cut(p, off, at, at + length);
    if x.wide {
      WideLength(p[off + 1], p[off + 2]);
      assert p[off..at] == [255, p[off + 1], p[off + 2]];
    } else {
      assert p[off..at] == [length - 1];
    }
  }

  lemma WideLength(high: byte, low: byte)
    ensures var n: int := high as int * 256 + low as int; n / 256 == high && n % 256 == low
  {
  }

  lemma Cut(p: seq<byte>, lo: nat, mid: nat, hi: nat)
    requires lo <= mid <= hi <= |p|
    ensures p[lo..hi] == p[lo..mid] + p[mid..hi]
  {
  }

  lemma ExtensionsCons(x: Extension, rest: seq<Extension>, packet: nat)
    requires x.Ok() && ExtensionsOk(rest) && packet < 16
    ensures ExtensionsOk([x] + rest)
    ensures ExtensionsOctets([x] + rest, packet) == x.Octets() + [Announced(rest, packet)] + ExtensionsOctets(rest, packet)
  {
    hide Extension.Ok, Extension.Octets;
    assert ([x] + rest)[1..] == rest;
  }

  /** Whatever was skipped is a sequence of extensions. */
  lemma {:induction false} SkippedAreExtensions(p: seq<byte>, off: nat, announced: nat) returns (xs: seq<Extension>)
    requires off <= |p| && announced < 16 && SkipModEx(p, off, announced).Ok?
    ensures var (packet, end) := SkipModEx(p, off, announced).value;
            && packet < 16 && ExtensionsOk(xs) && announced == Announced(xs, packet)
            && off <= end <= |p| && p[off..end] == ExtensionsOctets(xs, packet)
    decreases |p| - off
  {
    hide SkipModEx, Extension.Octets, Extension.Ok, ExtensionsOctets, ExtensionsOk, At;
    if announced != 7 {
      xs := [];
      NothingSkipped(p, off, announced);
    } else {
      var x := OneExtension(p, off);
      var at := off + |x.Octets()|;
      AtSplitLast(p, off, x.Octets());
      ExtensionReads(p, off, x, p[at]);
      var rest := SkippedAreExtensions(p, at + 1, p[at]);
      xs := [x] + rest;
      var (packet, end) := SkipModEx(p, off, 7).value;
      ExtensionsCons(x, rest, packet);
      AtSlice(p, off, x.Octets());
      Cut(p, off, at, end);
      Cut(p, at, at + 1, end);
      OneOctetSlice(p, at);
      Regroup3(x.Octets(), [p[at]], p[at + 1..end]);
    }
  }

  lemma NothingSkipped(p: seq<byte>, off: nat, announced: nat)
    requires off <= |p| && announced < 16 && announced != 7
    ensures SkipModEx(p, off, announced) == Ok((announced, off)) && ExtensionsOk([]) && p[off..off] == ExtensionsOctets([], announced)
  {
  }

  lemma AtSlice(p: seq<byte>, at: nat, field: seq<byte>)
    requires At(p, at, field)
    ensures at + |field| <= |p| && p[at..at + |field|] == field
  {
  }

  lemma OneOctetSlice(p: seq<byte>, at: nat)
    requires at < |p|
    ensures p[at..at + 1] == [p[at]]
  {
  }

  lemma Regroup3(a: seq<byte>, b: seq<byte>, c: seq<byte>)
    ensures a + (b + c) == a + b + c
  {
  }

  lemma AtSplitLast(p: seq<byte>, off: nat, field: seq<byte>)
    requires At(p, off, field) && off + |field| < |p|
    ensures At(p, off, field + [p[off + |field|]])
  {
    assert p[off..off + |field| + 1] == p[off..off + |field|] + [p[off + |field|]];
  }

  // ---- Parts of a Multitrack message -----------------------------------------------------------------

  /** One track's part. */
  datatype Part = Part(codec: Codec, id: byte, body: seq<byte>)

  /** Mode 0 is one track alone, mode 2 many tracks each with a codec of its own; between them, many tracks of one codec. */
  const ONE_TRACK: nat := 0
  const MANY_CODECS: nat := 2

  predicate Sizable(mode: nat, part: Part) {
    mode != ONE_TRACK ==> |part.body| < 0x100_0000
  }

  function SizeOctets(mode: nat, body: seq<byte>): seq<byte> {
    if mode == ONE_TRACK then [] else BigEndian(3, |body|)
  }

  function PartHead(mode: nat, part: Part): seq<byte> {
    (if mode == MANY_CODECS then FourCc(part.codec) else []) + [part.id] + SizeOctets(mode, part.body)
  }

  function PartOctets(mode: nat, part: Part): (s: seq<byte>)
    requires Sizable(mode, part)
    ensures |s| > |part.body|
  {
    PartHead(mode, part) + part.body
  }

  predicate Sized(mode: nat, parts: seq<Part>) {
    forall i :: 0 <= i < |parts| ==> Sizable(mode, parts[i])
  }

  function PartsOctets(mode: nat, parts: seq<Part>): seq<byte>
    requires Sized(mode, parts)
  {
    if parts == [] then [] else PartOctets(mode, parts[0]) + PartsOctets(mode, parts[1..])
  }

  lemma CodecReads(media: MediaType, codec: Codec)
    requires Fitting(media, codec)
    ensures |FourCc(codec)| == 4 && CodecOf(media, FourCc(codec)) == Some(codec)
  {
  }

  lemma CodecIsWritten(media: MediaType, f: seq<byte>)
    requires CodecOf(media, f).Some?
    ensures Fitting(media, CodecOf(media, f).value) && f == FourCc(CodecOf(media, f).value)
  {
  }

  /** A part whose fields lie one after another, the body last. */
  lemma ReadPartAt(media: MediaType, p: seq<byte>, off: nat, mode: nat, shared: Option<Codec>, seen: set<byte>, codec: Codec, at: nat, start: nat, end: nat)
    requires mode <= 2 && off <= at < start <= end <= |p| && p[at] !in seen
    requires if mode == MANY_CODECS then at == off + 4 && CodecOf(media, p[off..at]) == Some(codec) else at == off && shared == Some(codec)
    requires if mode == ONE_TRACK then start == at + 1 && end == |p| else start == at + 4 && end - start == U24(p[at + 1..])
    ensures ReadPart(media, p, off, mode, shared, seen) == Ok(TrackPart(codec, p[at], start, end))
  {
    hide CodecOf, U24;
  }

  /** Where the fields of a written part lie. */
  lemma PartFields(p: seq<byte>, off: nat, mode: nat, part: Part)
    requires mode <= 2 && Sizable(mode, part) && At(p, off, PartOctets(mode, part)) && |FourCc(part.codec)| == 4
    ensures var at := if mode == MANY_CODECS then off + 4 else off;
            var start := if mode == ONE_TRACK then at + 1 else at + 4;
            && at < start && start + |part.body| == off + |PartOctets(mode, part)| <= |p|
            && p[at] == part.id && p[start..start + |part.body|] == part.body
            && (mode == MANY_CODECS ==> p[off..at] == FourCc(part.codec))
            && (mode != ONE_TRACK ==> U24(p[at + 1..]) == |part.body|)
  {
    hide FourCc, U24, BigEndian;
    var fourcc := if mode == MANY_CODECS then FourCc(part.codec) else [];
    var size := SizeOctets(mode, part.body);
    AtSplit(p, off, fourcc + [part.id] + size, part.body);
    AtSplit(p, off, fourcc + [part.id], size);
    AtSplit(p, off, fourcc, [part.id]);
    var at := off + |fourcc|;
    AtIndex(p, at, [part.id], 0);
    if mode != ONE_TRACK {
      U24At(p, at + 1, |part.body|);
    }
  }

  predicate Spells(f: seq<byte>, name: string) {
    |f| == |name| && forall i :: 0 <= i < |f| ==> f[i] == name[i] as int
  }

  /** The codes by their registered names. */
  lemma CodecNames()
    ensures Spells(FourCc(Vp8), "vp08") && Spells(FourCc(Vp9), "vp09") && Spells(FourCc(Av1), "av01")
    ensures Spells(FourCc(Avc), "avc1") && Spells(FourCc(Hevc), "hvc1") && Spells(FourCc(Vvc), "vvc1")
    ensures Spells(FourCc(Ac3), "ac-3") && Spells(FourCc(Eac3), "ec-3") && Spells(FourCc(Opus), "Opus")
    ensures Spells(FourCc(Mp3), ".mp3") && Spells(FourCc(Flac), "fLaC") && Spells(FourCc(Aac), "mp4a")
  {
  }

  /** A written part is read back, with its body. */
  lemma PartReads(media: MediaType, p: seq<byte>, off: nat, mode: nat, shared: Option<Codec>, seen: set<byte>, part: Part)
    requires mode <= 2 && Sizable(mode, part) && Fitting(media, part.codec) && (mode != MANY_CODECS ==> shared == Some(part.codec))
    requires At(p, off, PartOctets(mode, part)) && part.id !in seen
    requires mode == ONE_TRACK ==> off + |PartOctets(mode, part)| == |p|
    ensures var end := off + |PartOctets(mode, part)|;
            && off < |p| && ReadPart(media, p, off, mode, shared, seen) == Ok(TrackPart(part.codec, part.id, end - |part.body|, end))
            && p[end - |part.body|..end] == part.body
  {
    CodecReads(media, part.codec);
    PartFields(p, off, mode, part);
    hide FourCc, U24, CodecOf, Fitting, PartOctets, At, ReadPart;
    var at := if mode == MANY_CODECS then off + 4 else off;
    var start := if mode == ONE_TRACK then at + 1 else at + 4;
    ReadPartAt(media, p, off, mode, shared, seen, part.codec, at, start, start + |part.body|);
  }

  predicate Distinct(parts: seq<Part>, seen: set<byte>) {
    && (forall i :: 0 <= i < |parts| ==> parts[i].id !in seen)
    && forall i, j :: 0 <= i < j < |parts| ==> parts[i].id != parts[j].id
  }

  predicate SharedOk(media: MediaType, mode: nat, shared: Option<Codec>, parts: seq<Part>) {
    forall i :: 0 <= i < |parts| ==> Fitting(media, parts[i].codec) && (mode != MANY_CODECS ==> shared == Some(parts[i].codec))
  }

  function TracksOf(media: MediaType, parts: seq<Part>): seq<Track> {
    if parts == [] then [] else [Track(media, parts[0].id)] + TracksOf(media, parts[1..])
  }

  /** What the parts say, one after another. */
  function PartsItems(amf: Amf, media: MediaType, packet: nat, parts: seq<Part>, o: Origin): Option<seq<Item>> {
    if parts == [] then Some([])
    else Joined(ItemsOf(amf, packet, parts[0].codec, parts[0].body, Track(media, parts[0].id), o, true), PartsItems(amf, media, packet, parts[1..], o))
  }

  lemma LessParts(media: MediaType, mode: nat, shared: Option<Codec>, parts: seq<Part>, seen: set<byte>)
    requires parts != [] && Sized(mode, parts) && Distinct(parts, seen) && SharedOk(media, mode, shared, parts)
    ensures Sizable(mode, parts[0]) && Sized(mode, parts[1..]) && Distinct(parts[1..], seen + {parts[0].id}) && SharedOk(media, mode, shared, parts[1..])
  {
    hide Fitting;
  }

  /** Written parts have exactly the effect their items say. */
  lemma {:induction false} PartsDo(amf: Amf, lim: Limits, m: Media, media: MediaType, p: seq<byte>, off: nat, mode: nat, packet: nat,
                                   shared: Option<Codec>, seen: set<byte>, o: Origin, parts: seq<Part>)
    requires mode <= 2 && Sized(mode, parts) && Distinct(parts, seen) && SharedOk(media, mode, shared, parts)
    requires At(p, off, PartsOctets(mode, parts)) && off + |PartsOctets(mode, parts)| == |p| && (mode == ONE_TRACK ==> |parts| <= 1)
    requires parts != [] || seen != {}
    ensures Does(lim, m, Tracks(amf, lim, m, media, p, off, mode, packet, shared, seen, o), TracksOf(media, parts),
                 PartsItems(amf, media, packet, parts, o), o.msid)
    decreases |parts|
  {
    hide Does, ReadPart, Packet, ItemsOf, Joined, At, PartOctets, SharedOk, Distinct, Sized;
    if parts == [] {
      NothingDone(lim, m, o.msid);
    } else {
      var part, rest := parts[0], parts[1..];
      LessParts(media, mode, shared, parts, seen);
      AtSplit(p, off, PartOctets(mode, part), PartsOctets(mode, rest));
      var end := off + |PartOctets(mode, part)|;
      FirstPart(media, mode, shared, parts, seen);
      PartReads(media, p, off, mode, shared, seen, part);
      var t := Track(media, part.id);
      PacketExact(amf, lim, m, packet, part.codec, part.body, t, o, true);
      var first := Packet(amf, lim, m, packet, part.codec, part.body, t, o, true);
      if first.Ok? {
        PartsDo(amf, lim, first.value, media, p, end, mode, packet, shared, seen + {part.id}, o, rest);
      }
      DoesBoth(lim, m, first, Tracks(amf, lim, m, media, p, off, mode, packet, shared, seen, o), [t], TracksOf(media, rest),
               ItemsOf(amf, packet, part.codec, part.body, t, o, true), PartsItems(amf, media, packet, rest, o), o.msid);
    }
  }

  lemma FirstPart(media: MediaType, mode: nat, shared: Option<Codec>, parts: seq<Part>, seen: set<byte>)
    requires parts != [] && Distinct(parts, seen) && SharedOk(media, mode, shared, parts)
    ensures parts[0].id !in seen && Fitting(media, parts[0].codec) && (mode != MANY_CODECS ==> shared == Some(parts[0].codec))
  {
  }

  /** Whatever is read as a part is a written part. */
  lemma ReadPartIsWritten(media: MediaType, p: seq<byte>, off: nat, mode: nat, shared: Option<Codec>, seen: set<byte>) returns (part: Part)
    requires off < |p| && mode <= 2 && ReadPart(media, p, off, mode, shared, seen).Ok? && (shared.Some? ==> Fitting(media, shared.value))
    ensures var r := ReadPart(media, p, off, mode, shared, seen).value;
            && part == Part(r.codec, r.id, p[r.start..r.end]) && Sizable(mode, part) && part.id !in seen
            && Fitting(media, part.codec) && (mode != MANY_CODECS ==> shared == Some(part.codec))
            && p[off..r.end] == PartOctets(mode, part) && (mode == ONE_TRACK ==> r.end == |p|)
  {
    var r := ReadPart(media, p, off, mode, shared, seen).value;
    part := Part(r.codec, r.id, p[r.start..r.end]);
    var at := if mode == MANY_CODECS then off + 4 else off;
    hide CodecOf, Fitting;
    if mode == MANY_CODECS {
      CodecIsWritten(media, p[off..at]);
    }
    if mode != ONE_TRACK {
      U24Written(p, at + 1);
    }
    hide FourCc, BigEndian, U24, ReadPart;
    Cut(p, off, at, r.end);
    Cut(p, at, at + 1, r.end);
    Cut(p, at + 1, r.start, r.end);
    assert p[at..at + 1] == [part.id];
    var fourcc := if mode == MANY_CODECS then FourCc(part.codec) else [];
    assert p[off..at] == fourcc && p[at + 1..r.start] == SizeOctets(mode, part.body);
    Regroup(fourcc, [part.id], SizeOctets(mode, part.body), part.body);
  }

  lemma Regroup(a: seq<byte>, b: seq<byte>, c: seq<byte>, d: seq<byte>)
    ensures a + (b + (c + d)) == a + b + c + d
  {
  }

  lemma U24Written(p: seq<byte>, at: nat)
    requires at + 3 <= |p|
    ensures p[at..at + 3] == BigEndian(3, U24(p[at..]))
  {
    var b := p[at..];
    U24Digits(b);
    Digits3(U24(b));
    hide U24;
    assert p[at..at + 3] == [b[0], b[1], b[2]];
  }

  lemma PartsCons(mode: nat, part: Part, rest: seq<Part>)
    requires Sizable(mode, part) && Sized(mode, rest)
    ensures Sized(mode, [part] + rest) && PartsOctets(mode, [part] + rest) == PartOctets(mode, part) + PartsOctets(mode, rest)
  {
    hide Sizable;
    assert ([part] + rest)[1..] == rest;
  }

  lemma MoreParts(media: MediaType, mode: nat, shared: Option<Codec>, part: Part, rest: seq<Part>, seen: set<byte>)
    requires part.id !in seen && Distinct(rest, seen + {part.id}) && SharedOk(media, mode, shared, rest)
    requires Fitting(media, part.codec) && (mode != MANY_CODECS ==> shared == Some(part.codec))
    ensures Distinct([part] + rest, seen) && SharedOk(media, mode, shared, [part] + rest)
  {
    hide Fitting;
  }

  /** Whatever is accepted as parts of a Multitrack message are written parts. */
  lemma {:induction false} TracksAreParts(amf: Amf, lim: Limits, m: Media, media: MediaType, p: seq<byte>, off: nat, mode: nat, packet: nat,
                                          shared: Option<Codec>, seen: set<byte>, o: Origin) returns (parts: seq<Part>)
    requires off <= |p| && mode <= 2 && Tracks(amf, lim, m, media, p, off, mode, packet, shared, seen, o).Ok?
    requires shared.Some? ==> Fitting(media, shared.value)
    ensures Sized(mode, parts) && Distinct(parts, seen) && SharedOk(media, mode, shared, parts)
    ensures p[off..] == PartsOctets(mode, parts) && (mode == ONE_TRACK ==> |parts| <= 1) && (parts != [] || seen != {})
    decreases |p| - off
  {
    hide ReadPart, Packet, Fitting, PartOctets, Sizable, Distinct, SharedOk, Sized;
    if off == |p| {
      parts := [];
      NoParts(media, mode, shared, seen);
      assert p[off..] == [];
    } else {
      var part := ReadPartIsWritten(media, p, off, mode, shared, seen);
      var r := ReadPart(media, p, off, mode, shared, seen).value;
      var m1 := Packet(amf, lim, m, packet, part.codec, part.body, Track(media, part.id), o, true).value;
      var rest := TracksAreParts(amf, lim, m1, media, p, r.end, mode, packet, shared, seen + {part.id}, o);
      parts := [part] + rest;
      hide Tracks, PartsOctets;
      PartsCons(mode, part, rest);
      MoreParts(media, mode, shared, part, rest, seen);
      Cut(p, off, r.end, |p|);
      assert p[off..] == p[off..|p|] && p[r.end..] == p[r.end..|p|];
      if mode == ONE_TRACK && rest != [] {
        NoOctets(mode, rest);
      }
    }
  }

  lemma NoParts(media: MediaType, mode: nat, shared: Option<Codec>, seen: set<byte>)
    ensures Sized(mode, []) && Distinct([], seen) && SharedOk(media, mode, shared, []) && PartsOctets(mode, []) == []
  {
  }

  lemma NoOctets(mode: nat, parts: seq<Part>)
    requires Sized(mode, parts) && PartsOctets(mode, parts) == []
    ensures parts == []
  {
  }

  // ---- Messages ----------------------------------------------------------------------------------------------

  datatype Form =
    | Silence
    | OldCommand(low: nat, command: byte)
    | Command(extensions: seq<Extension>, packet: nat, command: byte)
    | OldAvc(frameType: nat, packet: nat, offset: seq<byte>, body: seq<byte>)
    | OldAac(low: nat, packet: nat, body: seq<byte>)
    | OldAudio(format: nat, low: nat, body: seq<byte>)
    | Single(frameType: nat, extensions: seq<Extension>, packet: nat, codec: Codec, body: seq<byte>)
    | Multi(frameType: nat, extensions: seq<Extension>, mode: nat, packet: nat, parts: seq<Part>)

  /** Frame types by packet: any for metadata, key or inter frame otherwise; audio has the one that makes its format code. */
  predicate FrameTypeOk(media: MediaType, frameType: nat, packet: nat) {
    if media.Audio? then frameType == 1 else frameType < 8 && (packet == 4 || frameType == 1 || frameType == 2)
  }

  predicate PacketTypeOk(media: MediaType, packet: nat) {
    if media.Video? then packet <= 5 else packet in {0, 1, 2, 4}
  }

  function SharedCodec(mode: nat, parts: seq<Part>): Option<Codec>
    requires parts != []
  {
    if mode == MANY_CODECS then None else Some(parts[0].codec)
  }

  predicate FormOk(media: MediaType, f: Form) {
    match f
    case Silence => media.Audio?
    case OldCommand(low, command) => media.Video? && low < 16 && command <= 1
    case Command(xs, packet, command) => media.Video? && ExtensionsOk(xs) && packet < 16 && packet !in {4, 6, 7} && command <= 1
    case OldAvc(frameType, packet, offset, _) => media.Video? && 1 <= frameType <= 2 && packet <= 2 && |offset| == 3
    case OldAac(low, packet, _) => media.Audio? && low < 16 && packet <= 1
    case OldAudio(format, low, body) => media.Audio? && (format <= 6 || format == 11) && low < 16 && body != []
    case Single(frameType, xs, packet, codec, _) =>
      FrameTypeOk(media, frameType, packet) && ExtensionsOk(xs) && PacketTypeOk(media, packet) && Fitting(media, codec)
    case Multi(frameType, xs, mode, packet, parts) =>
      && FrameTypeOk(media, frameType, packet) && ExtensionsOk(xs) && mode <= 2 && PacketTypeOk(media, packet)
      && parts != [] && (mode == ONE_TRACK ==> |parts| == 1) && Sized(mode, parts) && Distinct(parts, {})
      && SharedOk(media, mode, SharedCodec(mode, parts), parts)
  }

  /** First octet and extensions of an enhanced message. */
  function Opening(frameType: nat, xs: seq<Extension>, packet: nat): seq<byte>
    requires frameType < 8 && ExtensionsOk(xs) && packet < 16
  {
    [128 + frameType * 16 + Announced(xs, packet)] + ExtensionsOctets(xs, packet)
  }

  /** The packet type that says Multitrack. */
  function MultitrackType(media: MediaType): nat {
    if media.Video? then 6 else 5
  }

  function MultiOctets(mode: nat, packet: nat, parts: seq<Part>): seq<byte>
    requires mode <= 2 && packet < 16 && parts != [] && Sized(mode, parts)
  {
    [mode * 16 + packet] + (if mode == MANY_CODECS then [] else FourCc(parts[0].codec)) + PartsOctets(mode, parts)
  }

  /** A message written out. */
  function Written(media: MediaType, f: Form): seq<byte>
    requires FormOk(media, f)
  {
    match f
    case Silence => []
    case OldCommand(low, command) => [5 * 16 + low, command]
    case Command(xs, packet, command) => Opening(5, xs, packet) + [command]
    case OldAvc(frameType, packet, offset, body) => [frameType * 16 + 7, packet] + offset + body
    case OldAac(low, packet, body) => [10 * 16 + low, packet] + body
    case OldAudio(format, low, body) => [format * 16 + low] + body
    case Single(frameType, xs, packet, codec, body) => Opening(frameType, xs, packet) + FourCc(codec) + body
    case Multi(frameType, xs, mode, packet, parts) => Opening(frameType, xs, MultitrackType(media)) + MultiOctets(mode, packet, parts)
  }

  /** The tracks a message is about. */
  function About(media: MediaType, f: Form): seq<Track> {
    match f
    case Silence => []
    case OldCommand(_, _) => []
    case Command(_, _, _) => []
    case Multi(_, _, _, _, parts) => TracksOf(media, parts)
    case _ => [Track(media, 0)]
  }

  /** What a message says. */
  function Says(amf: Amf, media: MediaType, f: Form, o: Origin): Option<seq<Item>> {
    match f
    case Silence => Some([])
    case OldCommand(_, _) => Some([])
    case Command(_, _, _) => Some([])
    case OldAvc(_, packet, offset, body) => VideoItems(amf, packet, Avc, if packet == 1 then offset + body else body, Track(Video, 0), o, false)
    case OldAac(_, packet, body) => AudioItems(packet, Aac, body, Track(Audio, 0), o, false)
    case OldAudio(_, _, body) => One(Frame(Track(Audio, 0), o.csid, o.timestamp, 0, body), Context(o.msid, None, false))
    case Single(_, _, packet, codec, body) => ItemsOf(amf, packet, codec, body, Track(media, 0), o, false)
    case Multi(_, _, _, packet, parts) => PartsItems(amf, media, packet, parts, o)
  }

  function Parse(amf: Amf, lim: Limits, m: Media, media: MediaType, p: seq<byte>, o: Origin): Parsed {
    if media.Video? then ParseVideo(amf, lim, m, p, o) else ParseAudio(amf, lim, m, p, o)
  }

  // ---- Written messages do what they say --------------------------------------------------------------------------

  lemma FirstOctet(frameType: nat, announced: nat)
    requires frameType < 8 && announced < 16
    ensures var first := 128 + frameType * 16 + announced;
            128 <= first < 256 && first / 16 == 8 + frameType && first / 16 % 8 == frameType && first % 16 == announced
  {
  }

  lemma OpeningReads(p: seq<byte>, frameType: nat, xs: seq<Extension>, packet: nat, rest: seq<byte>)
    requires frameType < 8 && ExtensionsOk(xs) && packet < 16 && packet != 7 && p == Opening(frameType, xs, packet) + rest
    ensures var off := |Opening(frameType, xs, packet)|;
            && p != [] && p[0] >= 128 && p[0] / 16 == 8 + frameType && p[0] / 16 % 8 == frameType
            && SkipModEx(p, 1, p[0] % 16) == Ok((packet, off)) && off <= |p| && p[off..] == rest
  {
    hide SkipModEx, ExtensionsOctets, ExtensionsOk;
    var more := ExtensionsOctets(xs, packet);
    FirstOctet(frameType, Announced(xs, packet));
    assert p == [128 + frameType * 16 + Announced(xs, packet)] + (more + rest);
    assert p[1..1 + |more|] == more;
    hide Announced;
    ExtensionsRead(p, 1, xs, packet);
  }

  lemma MultiDoes(amf: Amf, lim: Limits, m: Media, media: MediaType, f: Form, o: Origin)
    requires f.Multi? && FormOk(media, f)
    ensures Does(lim, m, Multitrack(amf, lim, m, media, MultiOctets(f.mode, f.packet, f.parts), f.frameType, o), TracksOf(media, f.parts),
                 PartsItems(amf, media, f.packet, f.parts, o), o.msid)
  {
    var p, mode, packet, parts := MultiOctets(f.mode, f.packet, f.parts), f.mode, f.packet, f.parts;
    assert p[0] == mode * 16 + packet && p[0] / 16 == mode && p[0] % 16 == packet;
    var shared := SharedCodec(mode, parts);
    FirstPart(media, mode, shared, parts, {});
    CodecReads(media, parts[0].codec);
    hide Does, Tracks, CodecOf, FourCc, Fitting, PartsOctets, Sized, Distinct, SharedOk, PartsItems;
    var fourcc := if mode == MANY_CODECS then [] else FourCc(parts[0].codec);
    var off := 1 + |fourcc|;
    assert p[1..off] == fourcc;
    assert At(p, off, PartsOctets(mode, parts)) by {
      assert p[off..off + |PartsOctets(mode, parts)|] == PartsOctets(mode, parts);
    }
    hide At;
    PartsDo(amf, lim, m, media, p, off, mode, packet, shared, {}, o, parts);
  }

  lemma CommandDoes(amf: Amf, lim: Limits, m: Media, f: Form, o: Origin)
    requires f.Command? && FormOk(Video, f)
    ensures Does(lim, m, Parse(amf, lim, m, Video, Written(Video, f), o), [], Some([]), o.msid)
  {
    hide Does, SkipModEx, ExtensionsOk, Opening, Multitrack, Packet, VideoCodec;
    OpeningReads(Written(Video, f), 5, f.extensions, f.packet, [f.command]);
    NothingDone(lim, m, o.msid);
  }

  /** An enhanced message with one track, once its opening is read. */
  lemma SingleParses(amf: Amf, lim: Limits, m: Media, media: MediaType, p: seq<byte>, off: nat, f: Form, o: Origin)
    requires f.Single? && FrameTypeOk(media, f.frameType, f.packet) && PacketTypeOk(media, f.packet)
    requires p != [] && p[0] >= 128 && p[0] / 16 == 8 + f.frameType && p[0] / 16 % 8 == f.frameType && SkipModEx(p, 1, p[0] % 16) == Ok((f.packet, off))
    requires off + 4 <= |p| && CodecOf(media, p[off..off + 4]) == Some(f.codec)
    ensures Parse(amf, lim, m, media, p, o) == Packet(amf, lim, m, f.packet, f.codec, p[off + 4..], Track(media, 0), o, false)
  {
    hide SkipModEx, VideoCodec, AudioCodec, Packet;
  }

  lemma SingleDoes(amf: Amf, lim: Limits, m: Media, media: MediaType, f: Form, o: Origin)
    requires f.Single? && FormOk(media, f)
    ensures Does(lim, m, Parse(amf, lim, m, media, Written(media, f), o), [Track(media, 0)],
                 ItemsOf(amf, f.packet, f.codec, f.body, Track(media, 0), o, false), o.msid)
  {
    var p, off := Written(media, f), |Opening(f.frameType, f.extensions, f.packet)|;
    hide Does, Parse, Packet, SkipModEx, CodecOf, ItemsOf, FourCc, Fitting, ExtensionsOk, Opening;
    assert p == Opening(f.frameType, f.extensions, f.packet) + (FourCc(f.codec) + f.body);
    OpeningReads(p, f.frameType, f.extensions, f.packet, FourCc(f.codec) + f.body);
    CodecReads(media, f.codec);
    assert p[off..off + 4] == p[off..][..4] == FourCc(f.codec);
    assert p[off + 4..] == p[off..][4..] == f.body;
    SingleParses(amf, lim, m, media, p, off, f, o);
    PacketExact(amf, lim, m, f.packet, f.codec, f.body, Track(media, 0), o, false);
  }

  lemma MultiParses(amf: Amf, lim: Limits, m: Media, media: MediaType, p: seq<byte>, off: nat, frameType: nat, o: Origin)
    requires frameType < 8 && (media.Audio? ==> frameType == 1) && off <= |p|
    requires p != [] && p[0] >= 128 && p[0] / 16 == 8 + frameType && p[0] / 16 % 8 == frameType && SkipModEx(p, 1, p[0] % 16) == Ok((MultitrackType(media), off))
    ensures Parse(amf, lim, m, media, p, o) == Multitrack(amf, lim, m, media, p[off..], frameType, o)
  {
    MultitrackAudio(amf, lim, m, p[off..], frameType, o);
    hide SkipModEx, Multitrack;
  }

  lemma MultiMessageDoes(amf: Amf, lim: Limits, m: Media, media: MediaType, f: Form, o: Origin)
    requires f.Multi? && FormOk(media, f)
    ensures Does(lim, m, Parse(amf, lim, m, media, Written(media, f), o), TracksOf(media, f.parts), PartsItems(amf, media, f.packet, f.parts, o), o.msid)
  {
    MultiDoes(amf, lim, m, media, f, o);
    hide Does, Parse, Multitrack, SkipModEx, PartsItems, TracksOf, MultiOctets, ExtensionsOk, Opening, Sized, Distinct, SharedOk;
    var p, off := Written(media, f), |Opening(f.frameType, f.extensions, MultitrackType(media))|;
    OpeningReads(p, f.frameType, f.extensions, MultitrackType(media), MultiOctets(f.mode, f.packet, f.parts));
    MultiParses(amf, lim, m, media, p, off, f.frameType, o);
  }

  lemma OldAvcDoes(amf: Amf, lim: Limits, m: Media, f: Form, o: Origin)
    requires f.OldAvc? && FormOk(Video, f)
    ensures Does(lim, m, Parse(amf, lim, m, Video, Written(Video, f), o), [Track(Video, 0)], Says(amf, Video, f, o), o.msid)
  {
    var p, t, offset := Written(Video, f), Track(Video, 0), SignedU24(f.offset);
    assert p == [f.frameType * 16 + 7, f.packet] + (f.offset + f.body);
    assert p[0] / 16 == f.frameType && p[0] % 16 == 7 && p[0] < 128 && p[1] == f.packet;
    assert p[2..5] == f.offset && p[5..] == f.body;
    EmitVideoExact(amf, lim, m.sink, f.packet, Avc, f.body, offset, t, o, false);
    OldAvcItems(amf, f.packet, f.offset, f.body, o);
    hide Does, Emits, EmitVideo, Associate, VideoItems, SplitItems, SignedU24;
    BindEmitDoes(lim, m, t, o.msid, EmitVideo(amf, lim, m.sink, f.packet, Avc, f.body, offset, t, o, false),
                 SplitItems(amf, f.packet, Avc, f.body, offset, t, o, false), Parse(amf, lim, m, Video, p, o));
  }

  lemma OldAvcItems(amf: Amf, packet: nat, offset: seq<byte>, body: seq<byte>, o: Origin)
    requires |offset| == 3 && packet <= 2
    ensures VideoItems(amf, packet, Avc, if packet == 1 then offset + body else body, Track(Video, 0), o, false) ==
            SplitItems(amf, packet, Avc, body, SignedU24(offset), Track(Video, 0), o, false)
  {
    if packet == 1 {
      SameU24(offset + body, offset);
      assert (offset + body)[3..] == body;
    }
    hide U24, FourCc;
  }

  lemma OldAacDoes(amf: Amf, lim: Limits, m: Media, f: Form, o: Origin)
    requires f.OldAac? && FormOk(Audio, f)
    ensures Does(lim, m, Parse(amf, lim, m, Audio, Written(Audio, f), o), [Track(Audio, 0)], Says(amf, Audio, f, o), o.msid)
  {
    var p, t := Written(Audio, f), Track(Audio, 0);
    assert p[0] / 16 == 10 && p[1] == f.packet && p[2..] == f.body;
    EmitAudioExact(lim, m.sink, f.packet, Aac, f.body, t, o, false);
    hide Does, Emits, EmitAudio, Associate, AudioItems;
    BindEmitDoes(lim, m, t, o.msid, EmitAudio(lim, m.sink, f.packet, Aac, f.body, t, o, false),
                 AudioItems(f.packet, Aac, f.body, t, o, false), Parse(amf, lim, m, Audio, p, o));
  }

  lemma OldAudioDoes(amf: Amf, lim: Limits, m: Media, f: Form, o: Origin)
    requires f.OldAudio? && FormOk(Audio, f)
    ensures Does(lim, m, Parse(amf, lim, m, Audio, Written(Audio, f), o), [Track(Audio, 0)], Says(amf, Audio, f, o), o.msid)
  {
    var p, t := Written(Audio, f), Track(Audio, 0);
    assert p[0] / 16 == f.format && p[1..] == f.body;
    var e, c := Frame(t, o.csid, o.timestamp, 0, f.body), Context(o.msid, None, false);
    PushExact(lim, m.sink, e, c);
    hide Does, Push, Associate, EmitAudio, Fits, With;
    BindEmitDoes(lim, m, t, o.msid, Push(lim, m.sink, e, Some(c)), One(e, c), Parse(amf, lim, m, Audio, p, o));
  }

  lemma OldCommandDoes(amf: Amf, lim: Limits, m: Media, f: Form, o: Origin)
    requires f.OldCommand? && FormOk(Video, f)
    ensures Does(lim, m, Parse(amf, lim, m, Video, Written(Video, f), o), [], Some([]), o.msid)
  {
    NothingDone(lim, m, o.msid);
    hide Does, EmitVideo, Associate, SignedU24;
    assert Written(Video, f)[1..] == [f.command];
  }

  /** A written message does exactly what it says: parsing succeeds if and only if it says something, its tracks can be bound
      and its items fit, and then appends those items and binds those tracks. */
  lemma MessageDoes(amf: Amf, lim: Limits, m: Media, media: MediaType, f: Form, o: Origin)
    requires FormOk(media, f)
    ensures Does(lim, m, Parse(amf, lim, m, media, Written(media, f), o), About(media, f), Says(amf, media, f, o), o.msid)
  {
    hide Does, Parse, Written, PartsItems, TracksOf, ItemsOf;
    match f
    case Silence =>
      NothingDone(lim, m, o.msid);
      SilenceParses(amf, lim, m, o);
    case OldCommand(_, _) => OldCommandDoes(amf, lim, m, f, o);
    case Command(_, _, _) => CommandDoes(amf, lim, m, f, o);
    case OldAvc(_, _, _, _) => OldAvcDoes(amf, lim, m, f, o);
    case OldAac(_, _, _) => OldAacDoes(amf, lim, m, f, o);
    case OldAudio(_, _, _) => OldAudioDoes(amf, lim, m, f, o);
    case Single(_, _, _, _, _) => SingleDoes(amf, lim, m, media, f, o);
    case Multi(_, _, _, _, _) => MultiMessageDoes(amf, lim, m, media, f, o);
  }

  lemma SilenceParses(amf: Amf, lim: Limits, m: Media, o: Origin)
    ensures Parse(amf, lim, m, Audio, Written(Audio, Silence), o) == Ok(m)
  {
  }

  /** Audio has no frame type. */
  lemma MultitrackAudio(amf: Amf, lim: Limits, m: Media, p: seq<byte>, frameType: nat, o: Origin)
    ensures Multitrack(amf, lim, m, Audio, p, frameType, o) == Multitrack(amf, lim, m, Audio, p, 0, o)
  {
    hide Tracks, CodecOf;
  }

  // ---- Only written messages are accepted ----------------------------------------------------------------------------

  /** The opening of an enhanced message: its frame type, extensions and packet type. */
  lemma OpeningWritten(p: seq<byte>) returns (xs: seq<Extension>)
    requires p != [] && p[0] >= 128 && SkipModEx(p, 1, p[0] % 16).Ok?
    ensures var (packet, off) := SkipModEx(p, 1, p[0] % 16).value;
            var frameType := p[0] / 16 - 8;
            && packet < 16 && packet != 7 && ExtensionsOk(xs) && 0 <= frameType < 8 && frameType == p[0] / 16 % 8
            && off <= |p| && p == Opening(frameType, xs, packet) + p[off..]
  {
    hide SkipModEx, ExtensionsOctets, ExtensionsOk, Announced;
    xs := SkippedAreExtensions(p, 1, p[0] % 16);
    var (packet, off) := SkipModEx(p, 1, p[0] % 16).value;
    FirstOctetParts(p[0]);
    PacketAfter(p, 1, p[0] % 16);
    assert p == [p[0]] + p[1..off] + p[off..];
  }

  lemma FirstOctetParts(first: byte)
    requires first >= 128
    ensures 8 <= first / 16 < 16 && first / 16 % 8 == first / 16 - 8 && first == 128 + (first / 16 - 8) * 16 + first % 16
  {
  }

  lemma PacketAfter(p: seq<byte>, off: nat, announced: nat)
    requires off <= |p| && SkipModEx(p, off, announced).Ok?
    ensures SkipModEx(p, off, announced).value.0 != 7 && off <= SkipModEx(p, off, announced).value.1 <= |p|
  {
    hide SkipModEx;
  }

  lemma MultiWritten(amf: Amf, lim: Limits, m: Media, media: MediaType, p: seq<byte>, frameType: nat, xs: seq<Extension>, o: Origin) returns (f: Form)
    requires Multitrack(amf, lim, m, media, p, frameType, o).Ok? && ExtensionsOk(xs) && frameType < 8 && (media.Audio? ==> frameType == 1)
    ensures f.Multi? && FormOk(media, f) && f.frameType == frameType && f.extensions == xs && MultiOctets(f.mode, f.packet, f.parts) == p
  {
    hide Tracks, CodecOf, FourCc, Fitting, PartsOctets, Sized, Distinct, SharedOk, ExtensionsOk;
    var mode, packet := p[0] / 16, p[0] % 16;
    var off := if mode == MANY_CODECS then 1 else 5;
    var shared := if mode == MANY_CODECS then None else CodecOf(media, p[1..5]);
    if mode != MANY_CODECS {
      CodecIsWritten(media, p[1..5]);
    }
    var parts := TracksAreParts(amf, lim, m, media, p, off, mode, packet, shared, {}, o);
    f := Multi(frameType, xs, mode, packet, parts);
    FirstPart(media, mode, shared, parts, {});
    assert mode * 16 + packet == p[0];
    var fourcc := if mode == MANY_CODECS then [] else FourCc(parts[0].codec);
    assert p[1..off] == fourcc;
    assert p == [p[0]] + p[1..off] + p[off..];
    assert SharedCodec(mode, parts) == shared;
  }

  lemma OldVideoWritten(amf: Amf, lim: Limits, m: Media, p: seq<byte>, o: Origin) returns (f: Form)
    requires p != [] && p[0] < 128 && LegacyVideo(amf, lim, m, p, o).Ok?
    ensures FormOk(Video, f) && Written(Video, f) == p
  {
    hide EmitVideo, Associate, SignedU24;
    var high, low := p[0] / 16, p[0] % 16;
    assert p[0] == high * 16 + low;
    if high == 5 {
      f := OldCommand(low, p[1]);
      assert p == [p[0], p[1]];
    } else {
      f := OldAvc(high, p[1], p[2..5], p[5..]);
      assert p == [p[0], p[1]] + p[2..5] + p[5..];
    }
  }

  lemma OldAudioWritten(lim: Limits, m: Media, p: seq<byte>, o: Origin) returns (f: Form)
    requires p != [] && p[0] / 16 != 9 && LegacyAudio(lim, m, p, o).Ok?
    ensures FormOk(Audio, f) && Written(Audio, f) == p
  {
    hide EmitAudio, Associate, Push;
    var high, low := p[0] / 16, p[0] % 16;
    assert p[0] == high * 16 + low;
    if high == 10 {
      f := OldAac(low, p[1], p[2..]);
      assert p == [p[0], p[1]] + p[2..];
    } else {
      f := OldAudio(high, low, p[1..]);
      assert p == [p[0]] + p[1..];
    }
  }

  lemma SingleWritten(media: MediaType, p: seq<byte>, frameType: nat, xs: seq<Extension>, packet: nat, off: nat) returns (f: Form)
    requires FrameTypeOk(media, frameType, packet) && ExtensionsOk(xs) && PacketTypeOk(media, packet) && off + 4 <= |p|
    requires p == Opening(frameType, xs, packet) + p[off..] && CodecOf(media, p[off..off + 4]).Some?
    ensures FormOk(media, f) && Written(media, f) == p
  {
    CodecIsWritten(media, p[off..off + 4]);
    hide CodecOf, Fitting, FourCc, ExtensionsOk, Opening;
    f := Single(frameType, xs, packet, CodecOf(media, p[off..off + 4]).value, p[off + 4..]);
    assert p[off..] == p[off..off + 4] + p[off + 4..];
  }

  /** Every accepted message is a written form. */
  lemma AcceptedIsWritten(amf: Amf, lim: Limits, m: Media, media: MediaType, p: seq<byte>, o: Origin) returns (f: Form)
    requires Parse(amf, lim, m, media, p, o).Ok?
    ensures FormOk(media, f) && Written(media, f) == p
  {
    hide SkipModEx, Multitrack, Packet, VideoCodec, AudioCodec, LegacyVideo, LegacyAudio, ExtensionsOk, Opening, Sized, Distinct, SharedOk, Fitting,
         FourCc, MultiOctets;
    if p == [] {
      f := Silence;
    } else if media.Video? && p[0] < 128 {
      f := OldVideoWritten(amf, lim, m, p, o);
    } else if media.Audio? && p[0] / 16 != 9 {
      f := OldAudioWritten(lim, m, p, o);
    } else {
      var xs := OpeningWritten(p);
      var (packet, off) := SkipModEx(p, 1, p[0] % 16).value;
      var frameType := p[0] / 16 - 8;
      if packet == MultitrackType(media) {
        MultitrackAudio(amf, lim, m, p[off..], frameType, o);
        f := MultiWritten(amf, lim, m, media, p[off..], frameType, xs, o);
      } else if media.Video? && packet != 4 && frameType == 5 {
        f := Command(xs, packet, p[off]);
        assert p[off..] == [p[off]];
      } else {
        f := SingleWritten(media, p, frameType, xs, packet, off);
      }
    }
  }

  /** Parsing a media message, exactly: it is accepted if and only if it is some written form that says something, can be bound
      and fits; and then it appends what that form says and binds what it is about. */
  lemma ParseExact(amf: Amf, lim: Limits, m: Media, media: MediaType, p: seq<byte>, o: Origin)
    ensures var r := Parse(amf, lim, m, media, p, o);
            r.Ok? <==> exists f :: FormOk(media, f) && Written(media, f) == p && Says(amf, media, f, o).Some? &&
                         Bindable(m.bindings, About(media, f), o.msid) && Fits(lim, m.sink, Says(amf, media, f, o).value)
    ensures var r := Parse(amf, lim, m, media, p, o);
            r.Ok? ==> forall f :: FormOk(media, f) && Written(media, f) == p ==>
              && Says(amf, media, f, o).Some? && r.value.sink == With(m.sink, Says(amf, media, f, o).value)
              && Binds(m.bindings, r.value.bindings, About(media, f), o.msid)
  {
    hide FormOk, Written, Says, About, Parse, Fits, With, Bindable, Binds;
    forall f | FormOk(media, f) && Written(media, f) == p
      ensures Does(lim, m, Parse(amf, lim, m, media, p, o), About(media, f), Says(amf, media, f, o), o.msid)
    {
      MessageDoes(amf, lim, m, media, f, o);
    }
    if Parse(amf, lim, m, media, p, o).Ok? {
      var f := AcceptedIsWritten(amf, lim, m, media, p, o);
    }
  }

  // ---- Audio frames, octet for octet ------------------------------------------------------------------------------------

  /** One audio frame was appended with these octets, hashed after its timestamp and a zero offset. */
  ghost predicate AudioFrame(m: Media, r: Media, o: Origin, data: seq<byte>, fourcc: Option<seq<byte>>) {
    var e, c := Frame(Track(Audio, 0), o.csid, o.timestamp, 0, data), Context(o.msid, fourcc, false);
    && r.sink.events == m.sink.events + [e] && r.sink.contexts == m.sink.contexts + [Some(c)]
    && HashesVerbatim(m, r, Track(Audio, 0), o, [0, 0, 0] + data)
  }

  lemma OneAudioFrame(m: Media, r: Media, o: Origin, data: seq<byte>, fourcc: Option<seq<byte>>)
    requires r.sink == With(m.sink, [Item(Frame(Track(Audio, 0), o.csid, o.timestamp, 0, data), Context(o.msid, fourcc, false))])
    ensures AudioFrame(m, r, o, data, fourcc)
  {
    var e, c := Frame(Track(Audio, 0), o.csid, o.timestamp, 0, data), Context(o.msid, fourcc, false);
    assert Events([Item(e, c)]) == [e] && Contexts([Item(e, c)]) == [Some(c)];
    hide Total;
    Digits3(0);
    hide BigEndian;
    assert BigEndian(4, o.timestamp) + [0, 0, 0] + data == BigEndian(4, o.timestamp) + ([0, 0, 0] + data);
  }

  /** A legacy AAC frame is the octets after format and packet type. */
  lemma AacFrameVerbatim(amf: Amf, lim: Limits, m: Media, p: seq<byte>, o: Origin)
    requires p != [] && p[0] / 16 == 10 && ParseAudio(amf, lim, m, p, o).Ok?
    ensures |p| >= 2 && (p[1] == 1 ==> AudioFrame(m, ParseAudio(amf, lim, m, p, o).value, o, p[2..], Some(FourCc(Aac))))
  {
    hide FourCc, AudioFrame, Associate, EmitAudio, With, Fits;
    if p[1] == 1 {
      EmitAudioExact(lim, m.sink, 1, Aac, p[2..], Track(Audio, 0), o, false);
      OneAudioFrame(m, ParseAudio(amf, lim, m, p, o).value, o, p[2..], Some(FourCc(Aac)));
    }
  }

  /** Any other legacy frame is the octets after the format. */
  lemma OldAudioFrameVerbatim(amf: Amf, lim: Limits, m: Media, p: seq<byte>, o: Origin)
    requires p != [] && p[0] / 16 !in {9, 10} && ParseAudio(amf, lim, m, p, o).Ok?
    ensures AudioFrame(m, ParseAudio(amf, lim, m, p, o).value, o, p[1..], None)
  {
    hide AudioFrame, Associate, Push, With, Fits;
    PushExact(lim, m.sink, Frame(Track(Audio, 0), o.csid, o.timestamp, 0, p[1..]), Context(o.msid, None, false));
    OneAudioFrame(m, ParseAudio(amf, lim, m, p, o).value, o, p[1..], None);
  }

  /** An enhanced frame is the octets after the codec, whatever extensions precede it. */
  lemma EnhancedAudioVerbatim(amf: Amf, lim: Limits, m: Media, p: seq<byte>, o: Origin)
    requires p != [] && p[0] / 16 == 9 && ParseAudio(amf, lim, m, p, o).Ok?
    requires SkipModEx(p, 1, p[0] % 16).Ok? && SkipModEx(p, 1, p[0] % 16).value.0 == 1
    ensures var off := SkipModEx(p, 1, p[0] % 16).value.1;
            off + 4 <= |p| && AudioFrame(m, ParseAudio(amf, lim, m, p, o).value, o, p[off + 4..], Some(p[off..off + 4]))
  {
    hide SkipModEx, FourCc, AudioFrame, AudioCodec, Packet, With, Fits, Bindable, Binds;
    var off := SkipModEx(p, 1, p[0] % 16).value.1;
    CodecIsWritten(Audio, p[off..off + 4]);
    PacketExact(amf, lim, m, 1, AudioCodec(p[off..off + 4]).value, p[off + 4..], Track(Audio, 0), o, false);
    OneAudioFrame(m, ParseAudio(amf, lim, m, p, o).value, o, p[off + 4..], Some(p[off..off + 4]));
  }

  /** The coded frame of one part of a Multitrack message of audio. */
  function PartFrame(part: Part, o: Origin): Item {
    Item(Frame(Track(Audio, part.id), o.csid, o.timestamp, 0, part.body), Context(o.msid, Some(FourCc(part.codec)), true))
  }

  lemma {:induction false} PartFrames(amf: Amf, parts: seq<Part>, o: Origin)
    requires PartsItems(amf, Audio, 1, parts, o).Some?
    ensures PartsItems(amf, Audio, 1, parts, o).value == seq(|parts|, k requires 0 <= k < |parts| => PartFrame(parts[k], o))
  {
    if parts != [] {
      PartFrames(amf, parts[1..], o);
    }
  }

  /** A Multitrack message of coded audio: one frame per part, in order, on its track, with its octets and codec. */
  lemma MultitrackAudioVerbatim(amf: Amf, lim: Limits, m: Media, f: Form, o: Origin)
    requires f.Multi? && f.packet == 1 && FormOk(Audio, f) && ParseAudio(amf, lim, m, Written(Audio, f), o).Ok?
    ensures ParseAudio(amf, lim, m, Written(Audio, f), o).value.sink
            == With(m.sink, seq(|f.parts|, k requires 0 <= k < |f.parts| => PartFrame(f.parts[k], o)))
  {
    MessageDoes(amf, lim, m, Audio, f, o);
    hide FormOk, Written, ParseAudio, ParseVideo, PartsItems, With, Fits, Bindable, Binds, FourCc;
    PartFrames(amf, f.parts, o);
  }
}
