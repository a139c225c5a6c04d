/** Reading a SegmentInfo out of its COSE_Sign1 envelope before anything about it is trusted. */
module ErtmpSegmentInfo {
  import opened Octets
  import opened CborValue
  import opened CborDecode
  import opened ErtmpTypes

  datatype SegmentInfo = SegmentInfo(
    track: Track,
    sequence: u64,
    algorithm: Algorithm,
    hash: seq<byte>,
    manifestId: ManifestId,
    payload: seq<byte>)

  datatype InfoError =
    | NotCbor | NotCoseSign1 | Detached | PayloadNotCbor | PayloadNotMap | UnknownField
    | BadMediaType | BadTrackId | BadSequence | BadHashMap | BadAlgorithm | BadHash | BadManifestId | BadManifestUri

  // Field names, as UTF-8.
  const MEDIA_TYPE: seq<byte> := [109, 101, 100, 105, 97, 84, 121, 112, 101]
  const TRACK_ID: seq<byte> := [116, 114, 97, 99, 107, 73, 100]
  const SEQUENCE_NUMBER: seq<byte> := [115, 101, 113, 117, 101, 110, 99, 101, 78, 117, 109, 98, 101, 114]
  const SEGMENT_HASH: seq<byte> := [115, 101, 103, 109, 101, 110, 116, 72, 97, 115, 104]
  const MANIFEST_ID: seq<byte> := [109, 97, 110, 105, 102, 101, 115, 116, 73, 100]
  const MANIFEST_URI: seq<byte> := [109, 97, 110, 105, 102, 101, 115, 116, 85, 114, 105]
  const ALG: seq<byte> := [97, 108, 103]
  const HASH: seq<byte> := [104, 97, 115, 104]
  const URL: seq<byte> := [117, 114, 108]
  const VIDEO: seq<byte> := [118, 105, 100, 101, 111]
  const AUDIO: seq<byte> := [97, 117, 100, 105, 111]
  const SHA256: seq<byte> := [115, 104, 97, 50, 53, 54]
  const SHA384: seq<byte> := [115, 104, 97, 51, 56, 52]
  const SHA512: seq<byte> := [115, 104, 97, 53, 49, 50]

  /** Every key is one of the allowed names and none is repeated. */
  predicate HasExactKeys(m: seq<Entry>, allowed: seq<seq<byte>>) {
    forall i :: 0 <= i < |m| ==>
      && m[i].key.Text?
      && m[i].key.utf8 in allowed
      && forall j :: 0 <= j < i ==> m[j].key != m[i].key
  }

  /** The value under `name` when exactly one entry carries it. */
  function Unique(m: seq<Entry>, name: seq<byte>): Option<Value> {
    if m == [] then None
    else if m[0].key != Text(name) then Unique(m[1..], name)
    else if exists i :: 1 <= i < |m| && m[i].key == Text(name) then None
    else Some(m[0].val)
  }

  function TextOf(v: Option<Value>): Option<seq<byte>> {
    match v case Some(Text(s)) => Some(s) case _ => None
  }

  function AlgorithmOf(name: Option<seq<byte>>): Option<Algorithm> {
    match name
    case None => None
    case Some(s) =>
      if s == SHA256 then Some(Sha256) else if s == SHA384 then Some(Sha384) else if s == SHA512 then Some(Sha512) else None
  }

  function HashLength(a: Algorithm): nat {
    match a case Sha256 => 32 case Sha384 => 48 case Sha512 => 64
  }

  function UntrustedSegmentInfo(widen: seq<byte> -> seq<byte>, cose: seq<byte>): (r: Result<SegmentInfo, InfoError>)
    ensures r.Ok? ==> |r.value.hash| == HashLength(r.value.algorithm) && r.value.manifestId != []
  {
    var decoded := Decode(widen, cose);
    if decoded.Err? then Err(NotCbor)
    else match decoded.value
      case Tag(tag, Array(parts)) =>
        if tag != 18 || |parts| != 4 then Err(NotCoseSign1)
        else if !parts[2].Bytes? then Err(Detached)
        else ReadPayload(widen, parts[2].bytes)
      case _ => Err(NotCoseSign1)
  }

  function ReadPayload(widen: seq<byte> -> seq<byte>, payload: seq<byte>): (r: Result<SegmentInfo, InfoError>)
    ensures r.Ok? ==> |r.value.hash| == HashLength(r.value.algorithm) && r.value.manifestId != []
  {
    var decoded := Decode(widen, payload);
    if decoded.Err? then Err(PayloadNotCbor)
    else if !decoded.value.Map? then Err(PayloadNotMap)
    else ReadMap(decoded.value.entries, payload)
  }

  function ReadMap(m: seq<Entry>, payload: seq<byte>): (r: Result<SegmentInfo, InfoError>)
    ensures r.Ok? ==> |r.value.hash| == HashLength(r.value.algorithm) && r.value.manifestId != []
  {
    if !HasExactKeys(m, [MEDIA_TYPE, TRACK_ID, SEQUENCE_NUMBER, SEGMENT_HASH, MANIFEST_ID, MANIFEST_URI]) then Err(UnknownField)
    else
      var media :- ReadMediaType(Unique(m, MEDIA_TYPE));
      var id :- ReadTrackId(Unique(m, TRACK_ID));
      var sequence :- ReadSequence(Unique(m, SEQUENCE_NUMBER));
      var digest :- ReadHash(Unique(m, SEGMENT_HASH));
      var manifestId :- ReadManifestId(Unique(m, MANIFEST_ID));
      if !ManifestUriOk(Unique(m, MANIFEST_URI)) then Err(BadManifestUri)
      else Ok(SegmentInfo(Track(media, id), sequence, digest.0, digest.1, manifestId, payload))
  }

  function ReadMediaType(v: Option<Value>): Result<MediaType, InfoError> {
    if TextOf(v) == Some(VIDEO) then Ok(Video) else if TextOf(v) == Some(AUDIO) then Ok(Audio) else Err(BadMediaType)
  }

  function ReadTrackId(v: Option<Value>): Result<byte, InfoError> {
    match v
    case None => Ok(0)
    case Some(Integer(n)) => if 0 <= n <= 255 then Ok(n) else Err(BadTrackId)
    case _ => Err(BadTrackId)
  }

  function ReadSequence(v: Option<Value>): Result<u64, InfoError> {
    match v
    case Some(Integer(n)) => if 0 <= n < TWO64 then Ok(n) else Err(BadSequence)
    case _ => Err(BadSequence)
  }

  function ReadHash(v: Option<Value>): (r: Result<(Algorithm, seq<byte>), InfoError>)
    ensures r.Ok? ==> |r.value.1| == HashLength(r.value.0)
  {
    match v
    case Some(Map(h)) =>
      if !HasExactKeys(h, [ALG, HASH]) || |h| != 2 then Err(BadHashMap)
      else
        var algorithm := AlgorithmOf(TextOf(Unique(h, ALG)));
        if algorithm.None? then Err(BadAlgorithm)
        else (match Unique(h, HASH)
              case Some(Bytes(b)) => if |b| == HashLength(algorithm.value) then Ok((algorithm.value, b)) else Err(BadHash)
              case _ => Err(BadHash))
    case _ => Err(BadHashMap)
  }

  function ReadManifestId(v: Option<Value>): (r: Result<ManifestId, InfoError>)
    ensures r.Ok? ==> r.value != []
  {
    match TextOf(v) case Some(s) => if s != [] then Ok(s) else Err(BadManifestId) case None => Err(BadManifestId)
  }

  predicate ManifestUriOk(v: Option<Value>) {
    match v
    case None => true
    case Some(Map(u)) =>
      var algorithm := AlgorithmOf(TextOf(Unique(u, ALG)));
      var url := TextOf(Unique(u, URL));
      && HasExactKeys(u, [URL, ALG, HASH]) && |u| == 3
      && url.Some? && url.value != []
      && algorithm.Some?
      && (match Unique(u, HASH) case Some(Bytes(b)) => |b| == HashLength(algorithm.value) case _ => false)
    case _ => false
  }
}
