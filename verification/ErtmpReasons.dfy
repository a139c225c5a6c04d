/** Every reason given for a failed attempt is true of it. */
module ErtmpReasons {
  import opened Octets
  import opened ErtmpTypes
  import opened ErtmpSegmentInfo
  import opened ErtmpVerifier
  import opened ErtmpSegmentFields
  import opened ErtmpEvidence
  import opened ErtmpInvariant
  import opened ErtmpAttempts

  /** The manifest that is active, if it is stored. */
  predicate Stored(s: State) {
    s.active.Some? && s.active.value.manifestId in s.manifests
  }

  /** No key of the active manifest vouches for the message on this track. */
  predicate NoneVouches(env: Env, s: State, t: Track, info: SegmentInfo, cose: seq<byte>)
    requires Stored(s)
  {
    var keys := s.manifests[s.active.value.manifestId].keys;
    forall i :: 0 <= i < |keys| ==>
      !Vouches(env, keys[i], info, cose) || (keys[i].keyId in s.keyTracks && s.keyTracks[keys[i].keyId] != t)
  }

  /** What each reason says of the message, the open frames and the manifest. */
  ghost predicate SaysTrue(env: Env, s: State, t: Track, csid: u32, timestamp: u32, cose: seq<byte>, e: CandidateError) {
    var frames := s.Get(t).frames;
    match e
    case Unreadable(_) => forall info :: !Carries(env.widen, cose, info)
    case WrongTrack => exists info :: Carries(env.widen, cose, info) && info.track != t
    case NoTrackState => t !in s.tracks
    case NoFrames => frames == []
    case WrongChunkStream => exists i :: 0 <= i < |frames| && frames[i].csid != csid
    case WrongTimestamp => frames != [] && frames[|frames| - 1].timestamp != timestamp
    case NoConfig => t !in s.configs
    case Reconfigured => t in s.configs && exists i :: 0 <= i < |frames| && frames[i].revision != s.configs[t].revision
    case WrongDigest => exists info :: Carries(env.widen, cose, info) && env.sha(info.algorithm, Preimage(frames)) != info.hash
    case WrongSequence => exists info :: Carries(env.widen, cose, info) && !Follows(s.Get(t).lastSequence, info.sequence)
    case NoActiveManifest => s.active.None?
    case NotActiveManifest => s.active.Some? && exists info :: Carries(env.widen, cose, info) && info.manifestId != s.active.value.manifestId
    case NotResent => s.active.Some? && !s.active.value.sinceReconnect
    case BeforeConfig => s.active.Some? && s.active.value.revision != s.CurrentRevision()
    case NotDelivered => !Stored(s)
    case DeliveredBeforeConfig => Stored(s) && s.manifests[s.active.value.manifestId].revision != s.CurrentRevision()
    case BoundElsewhere =>
      Stored(s) && var bound := s.manifests[s.active.value.manifestId].bound; bound.Some? && bound.value != env.sha(Sha256, InitializationData(s.configs))
    case ManifestUnverified =>
      Stored(s) && env.validate(InitializationData(s.configs), s.manifests[s.active.value.manifestId].store).None?
    case ManifestInvalid =>
      Stored(s) && var r := env.validate(InitializationData(s.configs), s.manifests[s.active.value.manifestId].store);
      r.Some? && r != Some(Report(true, true))
    case NoKey => Stored(s) && exists info :: Carries(env.widen, cose, info) && NoneVouches(env, s, t, info, cose)
    case NoCandidate => false
  }

  lemma CheckReasons(env: Env, s: State, t: Track, csid: u32, timestamp: u32, cose: seq<byte>)
    requires CheckCandidate(env, s, t, csid, timestamp, cose).Err?
    ensures SaysTrue(env, s, t, csid, timestamp, cose, CheckCandidate(env, s, t, csid, timestamp, cose).error)
  {
    hide Carries, UntrustedSegmentInfo, Preimage, InitializationData;
    var read := UntrustedSegmentInfo(env.widen, cose);
    if read.Ok? {
      SegmentInfoExact(env.widen, cose, read.value);
    } else {
      forall info ensures !Carries(env.widen, cose, info) {
        SegmentInfoExact(env.widen, cose, info);
      }
    }
  }

  /** In any state, the reason of a failed attempt is true of the message, the open frames and the manifest. */
  lemma ReasonTrue(env: Env, s: State, t: Track, csid: u32, timestamp: u32, cose: seq<byte>)
    requires Authenticate(env, s, t, csid, timestamp, cose).1.Err?
    ensures SaysTrue(env, s, t, csid, timestamp, cose, Authenticate(env, s, t, csid, timestamp, cose).1.error)
  {
    var checked := CheckCandidate(env, s, t, csid, timestamp, cose);
    if checked.Err? {
      CheckReasons(env, s, t, csid, timestamp, cose);
      hide CheckCandidate, SaysTrue;
    } else {
      LateReason(env, s, t, csid, timestamp, cose);
    }
  }

  lemma CheckedCarries(env: Env, s: State, t: Track, csid: u32, timestamp: u32, cose: seq<byte>)
    requires CheckCandidate(env, s, t, csid, timestamp, cose).Ok?
    ensures var info := CheckCandidate(env, s, t, csid, timestamp, cose).value;
            Carries(env.widen, cose, info) && s.active.Some? && info.manifestId == s.active.value.manifestId && Stored(s)
  {
    hide Carries, UntrustedSegmentInfo, Preimage;
    SegmentInfoExact(env.widen, cose, UntrustedSegmentInfo(env.widen, cose).value);
  }

  lemma LateReason(env: Env, s: State, t: Track, csid: u32, timestamp: u32, cose: seq<byte>)
    requires CheckCandidate(env, s, t, csid, timestamp, cose).Ok? && Authenticate(env, s, t, csid, timestamp, cose).1.Err?
    ensures SaysTrue(env, s, t, csid, timestamp, cose, Authenticate(env, s, t, csid, timestamp, cose).1.error)
  {
    hide CheckCandidate, Carries, InitializationData, FindKey, Vouches, Preimage;
    CheckedCarries(env, s, t, csid, timestamp, cose);
    var info := CheckCandidate(env, s, t, csid, timestamp, cose).value;
    var keys := s.manifests[info.manifestId].keys;
    FindKeyExact(env, s.keyTracks, keys, t, info, cose);
  }
}
