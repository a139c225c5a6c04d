/** What a SegmentInfo message is: which CBOR describes which segment, field by field. */
module ErtmpSegmentFields {
  import opened Octets
  import opened CborValue
  import opened CborEncode
  import opened CborDecode
  import opened CborRoundTrip
  import opened ErtmpTypes
  import opened ErtmpSegmentInfo

  // ---- Maps with text keys -----------------------------------------------------------------

  ghost predicate Holds(m: seq<Entry>, name: seq<byte>, v: Value) {
    exists i :: 0 <= i < |m| && m[i] == Entry(Text(name), v)
  }

  predicate Absent(m: seq<Entry>, name: seq<byte>) {
    forall i :: 0 <= i < |m| ==> m[i].key != Text(name)
  }

  predicate KeysDiffer(m: seq<Entry>) {
    forall i, j :: 0 <= i < j < |m| ==> m[i].key != m[j].key
  }

  ghost predicate IsOne(key: Value, names: seq<seq<byte>>) {
    exists k :: 0 <= k < |names| && key == Text(names[k])
  }

  ghost predicate KeysAmong(m: seq<Entry>, names: seq<seq<byte>>) {
    forall i :: 0 <= i < |m| ==> IsOne(m[i].key, names)
  }

  lemma ExactKeysMeans(m: seq<Entry>, names: seq<seq<byte>>)
    ensures HasExactKeys(m, names) <==> KeysDiffer(m) && KeysAmong(m, names)
  {
    forall i | 0 <= i < |m| ensures IsOne(m[i].key, names) <==> m[i].key.Text? && m[i].key.utf8 in names {
      if m[i].key.Text? && m[i].key.utf8 in names {
        var k :| 0 <= k < |names| && names[k] == m[i].key.utf8;
        assert m[i].key == Text(names[k]);
      }
    }
    hide IsOne;
    if HasExactKeys(m, names) {
      forall i, j | 0 <= i < j < |m| ensures m[i].key != m[j].key {
        assert m[j].key.Text?;
      }
    }
  }

  /** Among differing keys the unique entry of a name is the one it holds, and there is none exactly if the name is absent. */
  lemma {:induction false} UniqueMeans(m: seq<Entry>, name: seq<byte>, v: Value)
    requires KeysDiffer(m)
    ensures Unique(m, name) == Some(v) <==> Holds(m, name, v)
    ensures Unique(m, name) == None <==> Absent(m, name)
  {
    if m != [] {
      var rest := m[1..];
      assert forall i :: 1 <= i < |m| ==> m[i] == rest[i - 1];
      UniqueMeans(rest, name, v);
      HoldsFront(m, name, v);
      if m[0].key == Text(name) {
        assert m[0] == Entry(Text(name), m[0].val);
      }
    }
  }

  lemma HoldsFront(m: seq<Entry>, name: seq<byte>, v: Value)
    requires m != []
    ensures Holds(m, name, v) <==> m[0] == Entry(Text(name), v) || Holds(m[1..], name, v)
  {
    if Holds(m[1..], name, v) {
      var i :| 0 <= i < |m[1..]| && m[1..][i] == Entry(Text(name), v);
      assert m[i + 1] == Entry(Text(name), v);
    }
    if i :| 0 <= i < |m| && m[i] == Entry(Text(name), v) {
      if i > 0 {
        assert m[1..][i - 1] == m[i];
      }
    }
  }

  // ---- A segment's description -----------------------------------------------------------------

  function AlgorithmName(a: Algorithm): seq<byte> {
    match a case Sha256 => SHA256 case Sha384 => SHA384 case Sha512 => SHA512
  }

  function DigestOctets(a: Algorithm): nat {
    match a case Sha256 => 32 case Sha384 => 48 case Sha512 => 64
  }

  function MediaName(m: MediaType): seq<byte> {
    match m case Video => VIDEO case Audio => AUDIO
  }

  /** A digest map: its algorithm and an octet string of that algorithm's length. */
  ghost predicate IsDigest(h: seq<Entry>, a: Algorithm, b: seq<byte>) {
    Holds(h, ALG, Text(AlgorithmName(a))) && Holds(h, HASH, Bytes(b)) && |b| == DigestOctets(a)
  }

  /** An optional reference to the manifest: an address and a digest, nothing else. */
  ghost predicate IsReference(u: seq<Entry>) {
    && |u| == 3 && KeysDiffer(u) && KeysAmong(u, [URL, ALG, HASH])
    && (exists s :: s != [] && Holds(u, URL, Text(s)))
    && exists a, b :: IsDigest(u, a, b)
  }

  ghost predicate Describes(m: seq<Entry>, info: SegmentInfo) {
    && KeysDiffer(m) && KeysAmong(m, [MEDIA_TYPE, TRACK_ID, SEQUENCE_NUMBER, SEGMENT_HASH, MANIFEST_ID, MANIFEST_URI])
    && Holds(m, MEDIA_TYPE, Text(MediaName(info.track.media)))
    && (Holds(m, TRACK_ID, Integer(info.track.id)) || (Absent(m, TRACK_ID) && info.track.id == 0))
    && Holds(m, SEQUENCE_NUMBER, Integer(info.sequence))
    && (exists h :: Holds(m, SEGMENT_HASH, Map(h)) && IsHash(h, info.algorithm, info.hash))
    && Holds(m, MANIFEST_ID, Text(info.manifestId)) && info.manifestId != []
    && (Absent(m, MANIFEST_URI) || exists u :: Holds(m, MANIFEST_URI, Map(u)) && IsReference(u))
  }

  ghost predicate IsHash(h: seq<Entry>, a: Algorithm, b: seq<byte>) {
    |h| == 2 && KeysDiffer(h) && KeysAmong(h, [ALG, HASH]) && IsDigest(h, a, b)
  }

  // ---- Reading is describing --------------------------------------------------------------------

  lemma DigestMeans(h: seq<Entry>, a: Algorithm, b: seq<byte>)
    requires KeysDiffer(h)
    ensures IsDigest(h, a, b) <==>
            AlgorithmOf(TextOf(Unique(h, ALG))) == Some(a) && Unique(h, HASH) == Some(Bytes(b)) && |b| == HashLength(a)
  {
    hide Unique, Holds, Absent;
    UniqueMeans(h, ALG, Text(AlgorithmName(a)));
    UniqueMeans(h, HASH, Bytes(b));
    assert AlgorithmOf(TextOf(Unique(h, ALG))) == Some(a) <==> Unique(h, ALG) == Some(Text(AlgorithmName(a)));
  }

  lemma HashMeans(v: Option<Value>, a: Algorithm, b: seq<byte>)
    ensures ReadHash(v) == Ok((a, b)) <==> v.Some? && v.value.Map? && IsHash(v.value.entries, a, b)
  {
    hide HasExactKeys, Unique, IsDigest, KeysAmong, AlgorithmOf, HashLength;
    if v.Some? && v.value.Map? {
      ExactKeysMeans(v.value.entries, [ALG, HASH]);
      if KeysDiffer(v.value.entries) {
        DigestMeans(v.value.entries, a, b);
      }
    }
  }

  lemma ReferenceMeans(u: seq<Entry>)
    ensures ManifestUriOk(Some(Map(u))) <==> IsReference(u)
  {
    hide HasExactKeys, Unique, IsDigest, KeysAmong, AlgorithmOf, HashLength, Holds, Absent;
    ExactKeysMeans(u, [URL, ALG, HASH]);
    if KeysDiffer(u) {
      UrlMeans(u);
      ReferenceDigest(u);
    }
  }

  lemma UrlMeans(u: seq<Entry>)
    requires KeysDiffer(u)
    ensures (TextOf(Unique(u, URL)).Some? && TextOf(Unique(u, URL)).value != []) <==> exists s :: s != [] && Holds(u, URL, Text(s))
  {
    hide Unique, Holds, Absent;
    if TextOf(Unique(u, URL)).Some? {
      UniqueMeans(u, URL, Unique(u, URL).value);
    }
    forall s ensures Holds(u, URL, Text(s)) ==> Unique(u, URL) == Some(Text(s)) {
      UniqueMeans(u, URL, Text(s));
    }
  }

  lemma ReferenceDigest(u: seq<Entry>)
    requires KeysDiffer(u)
    ensures (AlgorithmOf(TextOf(Unique(u, ALG))).Some?
             && Unique(u, HASH).Some? && Unique(u, HASH).value.Bytes?
             && |Unique(u, HASH).value.bytes| == HashLength(AlgorithmOf(TextOf(Unique(u, ALG))).value))
       <==> exists a, b :: IsDigest(u, a, b)
  {
    hide Unique, IsDigest, AlgorithmOf, HashLength, TextOf;
    var a, h := AlgorithmOf(TextOf(Unique(u, ALG))), Unique(u, HASH);
    if a.Some? && h.Some? && h.value.Bytes? {
      DigestMeans(u, a.value, h.value.bytes);
    }
    forall a, b ensures IsDigest(u, a, b) ==>
      AlgorithmOf(TextOf(Unique(u, ALG))) == Some(a) && Unique(u, HASH) == Some(Bytes(b)) && |b| == HashLength(a)
    {
      DigestMeans(u, a, b);
    }
  }

  /** The simple fields. */
  lemma FieldMeans(m: seq<Entry>, info: SegmentInfo)
    requires KeysDiffer(m)
    ensures ReadMediaType(Unique(m, MEDIA_TYPE)) == Ok(info.track.media) <==> Holds(m, MEDIA_TYPE, Text(MediaName(info.track.media)))
    ensures ReadSequence(Unique(m, SEQUENCE_NUMBER)) == Ok(info.sequence) <==> Holds(m, SEQUENCE_NUMBER, Integer(info.sequence))
    ensures ReadTrackId(Unique(m, TRACK_ID)) == Ok(info.track.id) <==>
            Holds(m, TRACK_ID, Integer(info.track.id)) || (Absent(m, TRACK_ID) && info.track.id == 0)
    ensures ReadManifestId(Unique(m, MANIFEST_ID)) == Ok(info.manifestId) <==>
            Holds(m, MANIFEST_ID, Text(info.manifestId)) && info.manifestId != []
  {
    hide Unique, Holds, Absent;
    UniqueMeans(m, MEDIA_TYPE, Text(MediaName(info.track.media)));
    UniqueMeans(m, SEQUENCE_NUMBER, Integer(info.sequence));
    UniqueMeans(m, TRACK_ID, Integer(info.track.id));
    UniqueMeans(m, MANIFEST_ID, Text(info.manifestId));
  }

  lemma HashField(m: seq<Entry>, info: SegmentInfo)
    requires KeysDiffer(m)
    ensures ReadHash(Unique(m, SEGMENT_HASH)) == Ok((info.algorithm, info.hash)) <==>
            exists h :: Holds(m, SEGMENT_HASH, Map(h)) && IsHash(h, info.algorithm, info.hash)
  {
    hide Unique, Holds, Absent, IsHash, ReadHash;
    var v := Unique(m, SEGMENT_HASH);
    HashMeans(v, info.algorithm, info.hash);
    if v.Some? && v.value.Map? {
      UniqueMeans(m, SEGMENT_HASH, v.value);
    }
    forall h ensures Holds(m, SEGMENT_HASH, Map(h)) ==> v == Some(Map(h)) {
      UniqueMeans(m, SEGMENT_HASH, Map(h));
    }
  }

  lemma ReferenceField(m: seq<Entry>)
    requires KeysDiffer(m)
    ensures ManifestUriOk(Unique(m, MANIFEST_URI)) <==>
            Absent(m, MANIFEST_URI) || exists u :: Holds(m, MANIFEST_URI, Map(u)) && IsReference(u)
  {
    hide Unique, Holds, Absent, IsReference;
    var v := Unique(m, MANIFEST_URI);
    UniqueMeans(m, MANIFEST_URI, if v.Some? then v.value else Null);
    if v.Some? && v.value.Map? {
      ReferenceMeans(v.value.entries);
    }
    hide ManifestUriOk;
    forall u ensures Holds(m, MANIFEST_URI, Map(u)) ==> v == Some(Map(u)) {
      UniqueMeans(m, MANIFEST_URI, Map(u));
    }
    assert v == None ==> ManifestUriOk(v) by { AbsentReference(); }
    assert v.Some? && !v.value.Map? ==> !ManifestUriOk(v) by { OtherReference(v); }
  }

  lemma AbsentReference()
    ensures ManifestUriOk(None)
  {
  }

  lemma OtherReference(v: Option<Value>)
    ensures v.Some? && !v.value.Map? ==> !ManifestUriOk(v)
  {
  }

  /** Reading a map gives exactly the segment it describes. */
  lemma MapMeans(m: seq<Entry>, payload: seq<byte>, info: SegmentInfo)
    ensures ReadMap(m, payload) == Ok(info) <==> Describes(m, info) && info.payload == payload
  {
    hide HasExactKeys, Unique, Holds, Absent, IsReference, IsHash, KeysAmong, ReadMediaType, ReadTrackId, ReadSequence, ReadHash,
         ReadManifestId, ManifestUriOk, MediaName;
    ExactKeysMeans(m, [MEDIA_TYPE, TRACK_ID, SEQUENCE_NUMBER, SEGMENT_HASH, MANIFEST_ID, MANIFEST_URI]);
    if KeysDiffer(m) {
      FieldMeans(m, info);
      HashField(m, info);
      ReferenceField(m);
    }
  }

  /** The octets are a tagged COSE_Sign1 whose payload is a CBOR map that describes the segment. */
  ghost predicate Carries(widen: seq<byte> -> seq<byte>, cose: seq<byte>, info: SegmentInfo) {
    exists parts, m ::
      && Decode(widen, cose) == Ok(Tag(18, Array(parts))) && |parts| == 4 && parts[2] == Bytes(info.payload)
      && Decode(widen, info.payload) == Ok(Map(m)) && Describes(m, info)
  }

  /** A message is read as a segment if and only if it carries that segment. */
  lemma SegmentInfoExact(widen: seq<byte> -> seq<byte>, cose: seq<byte>, info: SegmentInfo)
    ensures UntrustedSegmentInfo(widen, cose) == Ok(info) <==> Carries(widen, cose, info)
  {
    hide Decode, ReadMap, Describes;
    var outer, inner := Decode(widen, cose), Decode(widen, info.payload);
    if inner.Ok? && inner.value.Map? {
      MapMeans(inner.value.entries, info.payload, info);
    }
    if UntrustedSegmentInfo(widen, cose) == Ok(info) {
      assert outer.value == Tag(18, Array(outer.value.inner.items));
      PayloadKept(widen, outer.value.inner.items[2].bytes);
      var parts, m := outer.value.inner.items, inner.value.entries;
      assert parts[2] == Bytes(info.payload) && inner == Ok(Map(m));
    }
    if Carries(widen, cose, info) {
      var parts, m :| Decode(widen, cose) == Ok(Tag(18, Array(parts))) && |parts| == 4 && parts[2] == Bytes(info.payload)
        && Decode(widen, info.payload) == Ok(Map(m)) && Describes(m, info);
      assert ReadMap(m, info.payload) == Ok(info);
    }
  }

  lemma PayloadKept(widen: seq<byte> -> seq<byte>, payload: seq<byte>)
    ensures ReadPayload(widen, payload).Ok? ==> ReadPayload(widen, payload).value.payload == payload
  {
    hide HasExactKeys, Unique, ReadMediaType, ReadTrackId, ReadSequence, ReadHash, ReadManifestId, ManifestUriOk;
  }

  /** So a segment written as a CBOR map, in whatever order, inside an envelope is read back. */
  lemma SegmentInfoReadsBack(widen: seq<byte> -> seq<byte>, m: seq<Entry>, head: Value, unprotected: Value, signature: Value, info: SegmentInfo, p: Profile)
    requires !p.SortsKeys() && WellTyped(Map(m)) && InRange(Map(m)) && Height(Map(m)) <= MAX_DEPTH && Nodes(Map(m)) <= MAX_VALUE_NODES
    requires Encode(Map(m), p) == Ok(info.payload) && Describes(m, info)
    requires var cose := Tag(18, Array([head, unprotected, Bytes(info.payload), signature]));
             WellTyped(cose) && InRange(cose) && Height(cose) <= MAX_DEPTH && Nodes(cose) <= MAX_VALUE_NODES
    ensures Encode(Tag(18, Array([head, unprotected, Bytes(info.payload), signature])), p).Ok?
    ensures UntrustedSegmentInfo(widen, Encode(Tag(18, Array([head, unprotected, Bytes(info.payload), signature])), p).value) == Ok(info)
  {
    hide Decode, Encode, WellTyped, InRange, Height, Nodes, Describes;
    var parts := [head, unprotected, Bytes(info.payload), signature];
    RoundTripExact(widen, Map(m), p);
    RoundTripExact(widen, Tag(18, Array(parts)), p);
    var cose := Encode(Tag(18, Array(parts)), p).value;
    assert Carries(widen, cose, info) by {
      assert Decode(widen, cose) == Ok(Tag(18, Array(parts))) && |parts| == 4 && parts[2] == Bytes(info.payload);
    }
    SegmentInfoExact(widen, cose, info);
  }
}
