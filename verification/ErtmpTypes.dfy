/** Events, tracks and the outside world of the E-RTMP verifier. */
module ErtmpTypes {
  import opened Octets

  datatype MediaType = Video | Audio

  /** Audio and video track ids are independent. */
  datatype Track = Track(media: MediaType, id: byte) {
    /** Position in the ordering of tracks: video before audio, then by id. */
    function Rank(): (r: nat)
      ensures r < TRACKS
    {
      match media case Video => id as int case Audio => 256 + id
    }
  }

  const TRACKS: nat := 512

  function TrackAt(rank: nat): (t: Track)
    requires rank < TRACKS
    ensures t.Rank() == rank
  {
    if rank < 256 then Track(Video, rank) else Track(Audio, rank - 256)
  }

  lemma RankInjective(t: Track)
    ensures TrackAt(t.Rank()) == t
  {
  }

  /** Name of a metadata pair. Only the first two are recognised. */
  datatype PairName = C2paManifest | C2paSegmentInfo | OtherName(text: seq<byte>)

  datatype Event =
    | CodecConfig(track: Track, csid: u32, payload: seq<byte>)
    | Frame(track: Track, csid: u32, timestamp: u32, offset: int, data: seq<byte>)
    | Metadata(track: Track, csid: u32, timestamp: u32, name: PairName, value: seq<byte>)
    | Reconnect
  {
    predicate IsManifest() { Metadata? && name.C2paManifest? }
    predicate IsSegmentInfo() { Metadata? && name.C2paSegmentInfo? }
    predicate IsFrameOn(t: Track) { Frame? && track == t }
    predicate IsConfigOn(t: Track) { CodecConfig? && track == t }
  }

  type ManifestId = seq<byte>

  datatype Algorithm = Sha256 | Sha384 | Sha512

  /** A session key taken from a delivered manifest. */
  datatype SessionKey = SessionKey(coseKey: seq<byte>, keyId: seq<byte>, minimumSequence: u64, createdAt: int, expiresAt: int)

  /** Outcome of ordinary manifest verification against given content. */
  datatype Report = Report(integrityValid: bool, bindingMatches: bool)

  /** A COSE_Sign1 message that verified under a key. */
  datatype Verified = Verified(keyId: Option<seq<byte>>, payload: seq<byte>)

  datatype Fatal = TooManyEvents | TooManyTracks | TooManyFrames | TooManyCandidates | BadManifest

  /** Hashing, signature checking, manifest parsing and manifest validation, none of which is modelled further. */
  datatype Env = Env(
    widen: seq<byte> -> seq<byte>,
    sha: (Algorithm, seq<byte>) -> seq<byte>,
    parseManifest: seq<byte> -> Option<(ManifestId, seq<SessionKey>)>,
    validate: (seq<byte>, seq<byte>) -> Option<Report>,
    verifyCose: (seq<byte>, seq<byte>) -> Option<Verified>,
    now: int)
}
