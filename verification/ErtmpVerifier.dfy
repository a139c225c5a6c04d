/** The verifier as a state machine: one step for each event. */
module ErtmpVerifier {
  import opened Octets
  import opened ErtmpTypes
  import opened ErtmpSegmentInfo

  const MAX_EVENTS: nat := 1_000_000
  const MAX_TRACKS: nat := 256
  const MAX_FRAMES_PER_SEGMENT: nat := 1_000_000
  const MAX_SEGMENT_INFOS: nat := 64

  // ---- State -------------------------------------------------------------------

  datatype Config = Config(csid: u32, payload: seq<byte>, revision: u64)

  datatype FrameRecord = FrameRecord(csid: u32, timestamp: u32, offset: int, data: seq<byte>, revision: u64)

  datatype Accepted = Accepted(sequence: u64, manifestId: ManifestId, keyId: seq<byte>)

  datatype CandidateError =
    | Unreadable(error: InfoError) | WrongTrack | NoTrackState | NoFrames | WrongChunkStream | WrongTimestamp
    | NoConfig | Reconfigured | WrongDigest | WrongSequence | NoActiveManifest | NotActiveManifest
    | NotResent | BeforeConfig | NotDelivered | DeliveredBeforeConfig | BoundElsewhere
    | ManifestUnverified | ManifestInvalid | NoKey | NoCandidate

  datatype Pending = Pending(candidates: nat, accepted: Option<Accepted>, failures: seq<CandidateError>)

  datatype TrackState = TrackState(frames: seq<FrameRecord>, pending: Option<Pending>, lastSequence: Option<u64>)

  datatype Delivery = Delivery(
    store: seq<byte>, keys: seq<SessionKey>, revision: u64, bound: Option<seq<byte>>, report: Option<Report>)

  datatype Active = Active(manifestId: ManifestId, revision: u64, sinceReconnect: bool)

  datatype SegmentReport = SegmentReport(track: Track, accepted: Option<Accepted>, failures: seq<CandidateError>) {
    predicate Valid() { accepted.Some? }
  }

  datatype Failure =
    | NotNegotiated | OffsetOutOfRange(track: Track) | FrameBeforeManifest | FrameBeforeConfig(track: Track)
    | FrameChunkStream(track: Track) | ManifestChunkStream(track: Track) | OpenAtReconnect(track: Track)
    | ClosesNothing(track: Track) | OpenAtEnd(track: Track) | NoSegment

  datatype State = State(
    configs: map<Track, Config>,
    tracks: map<Track, TrackState>,
    manifests: map<ManifestId, Delivery>,
    keyTracks: map<seq<byte>, Track>,
    nextRevision: u64,
    active: Option<Active>,
    reports: seq<SegmentReport>,
    failures: seq<Failure>)
  {
    function Get(t: Track): TrackState {
      if t in tracks then tracks[t] else TrackState([], None, None)
    }

    function Fail(f: Failure): State {
      this.(failures := failures + [f])
    }

    function CurrentRevision(): nat {
      if nextRevision == 0 then 0 else nextRevision - 1
    }
  }

  const START := State(map[], map[], map[], map[], 1, None, [], [])

  // ---- Accumulated octets --------------------------------------------------------

  /** The three low-order octets of a composition offset seen as a 32-bit word. */
  function OffsetOctets(offset: int): seq<byte> {
    BigEndian(3, (offset % TWO32) % 0x100_0000)
  }

  function FrameOctets(f: FrameRecord): seq<byte> {
    BigEndian(4, f.timestamp) + OffsetOctets(f.offset) + f.data
  }

  /** What is hashed for a segment. It carries no frame lengths. */
  function Preimage(frames: seq<FrameRecord>): seq<byte> {
    if frames == [] then [] else Preimage(frames[..|frames| - 1]) + FrameOctets(frames[|frames| - 1])
  }

  /** Codec configurations of the tracks below `rank`, in track order. */
  function InitializationBelow(configs: map<Track, Config>, rank: nat): seq<byte>
    requires rank <= TRACKS
  {
    if rank == 0 then []
    else
      var t := TrackAt(rank - 1);
      InitializationBelow(configs, rank - 1) + if t in configs then configs[t].payload else []
  }

  function InitializationData(configs: map<Track, Config>): seq<byte> {
    InitializationBelow(configs, TRACKS)
  }

  /** The members of a set of tracks whose rank is below `rank`, in order. */
  function TracksBelow(tracks: set<Track>, rank: nat): (r: seq<Track>)
    requires rank <= TRACKS
  {
    if rank == 0 then []
    else
      var t := TrackAt(rank - 1);
      TracksBelow(tracks, rank - 1) + if t in tracks then [t] else []
  }

  function InOrder(tracks: set<Track>): seq<Track> {
    TracksBelow(tracks, TRACKS)
  }

  // ---- Closing segments --------------------------------------------------------------

  function ReportOf(t: Track, p: Pending): SegmentReport {
    SegmentReport(t, p.accepted, if p.accepted.Some? then [] else if p.failures == [] then [NoCandidate] else p.failures)
  }

  function FinalizePending(s: State, t: Track): State {
    if s.Get(t).pending.None? then s
    else
      var p := s.Get(t).pending.value;
      var last := if p.accepted.Some? then Some(p.accepted.value.sequence) else s.Get(t).lastSequence;
      s.(tracks := s.tracks[t := TrackState([], None, last)], reports := s.reports + [ReportOf(t, p)])
  }

  /** Close one track at a reconnection. */
  function CloseAtReconnect(s: State, t: Track): State {
    var c := FinalizePending(s, t);
    if c.Get(t).frames == [] then c
    else c.(tracks := c.tracks[t := c.Get(t).(frames := [])]).Fail(OpenAtReconnect(t))
  }

  /** Close one track at the end of the input. */
  function CloseAtEnd(s: State, t: Track): State {
    var c := FinalizePending(s, t);
    if c.Get(t).frames == [] then c else c.Fail(OpenAtEnd(t))
  }

  function CloseAllAtReconnect(s: State, ts: seq<Track>): State {
    if ts == [] then s else CloseAtReconnect(CloseAllAtReconnect(s, ts[..|ts| - 1]), ts[|ts| - 1])
  }

  function CloseAllAtEnd(s: State, ts: seq<Track>): State {
    if ts == [] then s else CloseAtEnd(CloseAllAtEnd(s, ts[..|ts| - 1]), ts[|ts| - 1])
  }

  function Reconnected(s: State): State {
    var c := CloseAllAtReconnect(s, InOrder(s.tracks.Keys));
    c.(configs := map[],
       active := match c.active case None => None case Some(a) => Some(a.(sinceReconnect := false)))
  }

  // ---- Events that carry media -----------------------------------------------------------

  function SaturatingNext(n: u64): u64 {
    if n + 1 < TWO64 then n + 1 else n
  }

  function OnConfig(s: State, t: Track, csid: u32, payload: seq<byte>): Result<State, Fatal> {
    if t !in s.configs && |s.configs| >= MAX_TRACKS then Err(TooManyTracks)
    else Ok(s.(configs := s.configs[t := Config(csid, payload, s.nextRevision)], nextRevision := SaturatingNext(s.nextRevision)))
  }

  predicate ManifestInForce(s: State) {
    s.active.Some? && s.active.value.revision == s.CurrentRevision() && s.active.value.sinceReconnect
  }

  /** Defects a frame is reported for, once its track's pending segment is closed. */
  function FrameFailures(s: State, t: Track, csid: u32, offset: int): seq<Failure> {
    if !OffsetInRange(offset) then [OffsetOutOfRange(t)]
    else
      (if ManifestInForce(s) then [] else [FrameBeforeManifest]) +
      (if t !in s.configs then [FrameBeforeConfig(t)] else if s.configs[t].csid != csid then [FrameChunkStream(t)] else [])
  }

  predicate OffsetInRange(offset: int) {
    -0x80_0000 <= offset < 0x80_0000
  }

  /** A frame joins its track's segment unless its offset is out of range or its track is not configured. */
  predicate Recorded(s: State, t: Track, offset: int) {
    OffsetInRange(offset) && t in s.configs
  }

  function OnFrame(s0: State, t: Track, csid: u32, timestamp: u32, offset: int, data: seq<byte>): Result<State, Fatal> {
    var s := FinalizePending(s0, t);
    var failures := s.failures + FrameFailures(s, t, csid, offset);
    if !Recorded(s, t, offset) then Ok(s.(failures := failures))
    else if |s.Get(t).frames| >= MAX_FRAMES_PER_SEGMENT then Err(TooManyFrames)
    else
      var f := FrameRecord(csid, timestamp, offset, data, s.configs[t].revision);
      Ok(s.(tracks := s.tracks[t := s.Get(t).(frames := s.Get(t).frames + [f])], failures := failures))
  }

  function OnManifest(env: Env, s: State, t: Track, csid: u32, value: seq<byte>): Result<State, Fatal> {
    var parsed := env.parseManifest(value);
    if parsed.None? then Err(BadManifest)
    else
      var (id, keys) := parsed.value;
      var revision := s.CurrentRevision();
      var s1 := s.(manifests := s.manifests[id := Delivery(value, keys, revision, None, None)],
                   active := Some(Active(id, revision, true)));
      Ok(if t in s1.configs && s1.configs[t].csid != csid then s1.Fail(ManifestChunkStream(t)) else s1)
  }

  // ---- Authenticating a SegmentInfo ----------------------------------------------------------

  /** Everything that is checked before the manifest itself is validated. */
  function CheckCandidate(env: Env, s: State, t: Track, csid: u32, timestamp: u32, cose: seq<byte>): Result<SegmentInfo, CandidateError> {
    var read := UntrustedSegmentInfo(env.widen, cose);
    if read.Err? then Err(Unreadable(read.error))
    else
      var info := read.value;
      var st := s.Get(t);
      if info.track != t then Err(WrongTrack)
      else if t !in s.tracks then Err(NoTrackState)
      else if st.frames == [] then Err(NoFrames)
      else if exists i :: 0 <= i < |st.frames| && st.frames[i].csid != csid then Err(WrongChunkStream)
      else if st.frames[|st.frames| - 1].timestamp != timestamp then Err(WrongTimestamp)
      else if t !in s.configs then Err(NoConfig)
      else if exists i :: 0 <= i < |st.frames| && st.frames[i].revision != s.configs[t].revision then Err(Reconfigured)
      else if env.sha(info.algorithm, Preimage(st.frames)) != info.hash then Err(WrongDigest)
      else if st.lastSequence.Some? && st.lastSequence.value + 1 != info.sequence then Err(WrongSequence)
      else CheckActive(s, info)
  }

  function CheckActive(s: State, info: SegmentInfo): Result<SegmentInfo, CandidateError> {
    if s.active.None? then Err(NoActiveManifest)
    else if info.manifestId != s.active.value.manifestId then Err(NotActiveManifest)
    else if !s.active.value.sinceReconnect then Err(NotResent)
    else if s.active.value.revision != s.CurrentRevision() then Err(BeforeConfig)
    else if info.manifestId !in s.manifests then Err(NotDelivered)
    else if s.manifests[info.manifestId].revision != s.CurrentRevision() then Err(DeliveredBeforeConfig)
    else Ok(info)
  }

  /** Bind a delivered manifest to the initialization data in force at its first use. */
  function Bind(env: Env, d: Delivery, initialization: seq<byte>): Result<Delivery, CandidateError> {
    var hash := env.sha(Sha256, initialization);
    match d.bound
    case Some(bound) => if bound != hash then Err(BoundElsewhere) else Ok(d)
    case None =>
      var report := env.validate(initialization, d.store);
      if report.None? then Err(ManifestUnverified)
      else if !report.value.integrityValid || !report.value.bindingMatches then Err(ManifestInvalid)
      else Ok(d.(bound := Some(hash), report := report))
  }

  /** This key authenticates the message for this track at the validation time. */
  predicate KeyAccepts(env: Env, keyTracks: map<seq<byte>, Track>, key: SessionKey, t: Track, info: SegmentInfo, cose: seq<byte>) {
    var verified := env.verifyCose(cose, key.coseKey);
    && verified.Some?
    && verified.value.keyId == Some(key.keyId)
    && verified.value.payload == info.payload
    && info.sequence >= key.minimumSequence
    && key.createdAt <= env.now <= key.expiresAt
    && (key.keyId in keyTracks ==> keyTracks[key.keyId] == t)
  }

  function FindKey(env: Env, keyTracks: map<seq<byte>, Track>, keys: seq<SessionKey>, t: Track, info: SegmentInfo, cose: seq<byte>): Option<SessionKey> {
    if keys == [] then None
    else if KeyAccepts(env, keyTracks, keys[0], t, info, cose) then Some(keys[0])
    else FindKey(env, keyTracks, keys[1..], t, info, cose)
  }

  /** State after the attempt, and its result. A validated manifest stays bound even when no key fits. */
  function Authenticate(env: Env, s: State, t: Track, csid: u32, timestamp: u32, cose: seq<byte>): (State, Result<Accepted, CandidateError>) {
    var checked := CheckCandidate(env, s, t, csid, timestamp, cose);
    if checked.Err? then (s, Err(checked.error))
    else
      var info := checked.value;
      if info.manifestId !in s.manifests then (s, Err(NotDelivered))
      else
        var d := Bind(env, s.manifests[info.manifestId], InitializationData(s.configs));
        if d.Err? then (s, Err(d.error))
        else
          var s1 := s.(manifests := s.manifests[info.manifestId := d.value]);
          var key := FindKey(env, s.keyTracks, d.value.keys, t, info, cose);
          if key.None? then (s1, Err(NoKey))
          else
            var id := key.value.keyId;
            (s1.(keyTracks := if id in s1.keyTracks then s1.keyTracks else s1.keyTracks[id := t]),
             Ok(Accepted(info.sequence, info.manifestId, id)))
  }

  function Record(p: Pending, result: Result<Accepted, CandidateError>): Pending {
    var p1 := p.(candidates := p.candidates + 1);
    match result
    case Ok(a) => if p1.accepted.None? then p1.(accepted := Some(a)) else p1
    case Err(e) => p1.(failures := p1.failures + [e])
  }

  function PendingOf(s: State, t: Track): Pending {
    if s.Get(t).pending.Some? then s.Get(t).pending.value else Pending(0, None, [])
  }

  /** The state in which a SegmentInfo is authenticated. */
  function WithPending(s: State, t: Track, p: Pending): State {
    s.(tracks := s.tracks[t := s.Get(t).(pending := Some(p))])
  }

  function OnSegmentInfo(env: Env, s: State, t: Track, csid: u32, timestamp: u32, cose: seq<byte>): Result<State, Fatal> {
    var p := PendingOf(s, t);
    if s.Get(t).frames == [] && s.Get(t).pending.None? then Ok(s.Fail(ClosesNothing(t)))
    else if p.candidates >= MAX_SEGMENT_INFOS then Err(TooManyCandidates)
    else
      var (s2, result) := Authenticate(env, WithPending(s, t, p), t, csid, timestamp, cose);
      Ok(WithPending(s2, t, Record(p, result)))
  }

  // ---- Runs ---------------------------------------------------------------------------------------

  function Step(env: Env, s: State, e: Event): Result<State, Fatal> {
    match e
    case CodecConfig(t, csid, payload) => OnConfig(s, t, csid, payload)
    case Frame(t, csid, timestamp, offset, data) => OnFrame(s, t, csid, timestamp, offset, data)
    case Metadata(t, csid, timestamp, name, value) =>
      (match name
       case C2paManifest => OnManifest(env, s, t, csid, value)
       case C2paSegmentInfo => OnSegmentInfo(env, s, t, csid, timestamp, value)
       case OtherName(_) => Ok(s))
    case Reconnect => Ok(Reconnected(s))
  }

  function Run(env: Env, s: State, es: seq<Event>): Result<State, Fatal> {
    if es == [] then Ok(s)
    else
      var before :- Run(env, s, es[..|es| - 1]);
      Step(env, before, es[|es| - 1])
  }

  datatype Input = Input(clientCaps: u64, serverCaps: u64, objectEncoding: byte, events: seq<Event>) {
    /** Both ends announced bit 0x10 and the connection selected AMF3. */
    predicate Negotiated() {
      objectEncoding == 3 && clientCaps / 16 % 2 == 1 && serverCaps / 16 % 2 == 1
    }
  }

  datatype Verdict = Verdict(valid: bool, manifests: map<ManifestId, Report>, segments: seq<SegmentReport>, failures: seq<Failure>)

  function Validated(manifests: map<ManifestId, Delivery>): map<ManifestId, Report> {
    map id | id in manifests && manifests[id].report.Some? :: manifests[id].report.value
  }

  function Ended(s: State): State {
    var c := CloseAllAtEnd(s, InOrder(s.tracks.Keys));
    if c.reports == [] then c.Fail(NoSegment) else c
  }

  function VerdictOf(c: State): Verdict {
    var manifests := Validated(c.manifests);
    Verdict(
      && c.failures == []
      && (forall i :: 0 <= i < |c.reports| ==> c.reports[i].Valid())
      && (forall id :: id in manifests ==> manifests[id].integrityValid),
      manifests, c.reports, c.failures)
  }

  function Begun(input: Input): State {
    if input.Negotiated() then START else START.Fail(NotNegotiated)
  }

  function Verify(env: Env, input: Input): Result<Verdict, Fatal> {
    if |input.events| > MAX_EVENTS then Err(TooManyEvents)
    else
      var s :- Run(env, Begun(input), input.events);
      Ok(VerdictOf(Ended(s)))
  }
}
