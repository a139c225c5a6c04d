/** The verifier object, whose methods update its fields in place. */
module ErtmpMachine {
  import opened Octets
  import opened ErtmpTypes
  import opened ErtmpSegmentInfo
  import opened ErtmpVerifier

  /** The initialization data, collected track by track. */
  method CollectInitialization(configs: map<Track, Config>) returns (octets: seq<byte>)
    ensures octets == InitializationData(configs)
  {
    octets := [];
    for rank := 0 to TRACKS
      invariant octets == InitializationBelow(configs, rank)
    {
      var t := TrackAt(rank);
      if t in configs {
        octets := octets + configs[t].payload;
      }
    }
  }

  /** What the hasher is fed, frame by frame. */
  method CollectPreimage(frames: seq<FrameRecord>) returns (octets: seq<byte>)
    ensures octets == Preimage(frames)
  {
    octets := [];
    for i := 0 to |frames|
      invariant octets == Preimage(frames[..i])
    {
      octets := octets + BigEndian(4, frames[i].timestamp);
      var word := frames[i].offset % TWO32;
      octets := octets + BigEndian(3, word % 0x100_0000);
      octets := octets + frames[i].data;
      assert frames[..i + 1][..i] == frames[..i];
    }
    assert frames[..|frames|] == frames;
  }

  /** The first key that authenticates the message. */
  method SearchKeys(env: Env, keyTracks: map<seq<byte>, Track>, keys: seq<SessionKey>, t: Track, info: SegmentInfo, cose: seq<byte>)
    returns (found: Option<SessionKey>)
    ensures found == FindKey(env, keyTracks, keys, t, info, cose)
  {
    hide KeyAccepts;
    found := None;
    for i := 0 to |keys|
      invariant FindKey(env, keyTracks, keys, t, info, cose) == FindKey(env, keyTracks, keys[i..], t, info, cose)
    {
      if KeyAccepts(env, keyTracks, keys[i], t, info, cose) {
        found := Some(keys[i]);
        return;
      }
      assert keys[i..][1..] == keys[i + 1..];
    }
  }

  /** The tracks with state, in order. */
  method OrderedTracks(tracks: set<Track>) returns (ts: seq<Track>)
    ensures ts == InOrder(tracks)
  {
    ts := [];
    for rank := 0 to TRACKS
      invariant ts == TracksBelow(tracks, rank)
    {
      if TrackAt(rank) in tracks {
        ts := ts + [TrackAt(rank)];
      }
    }
  }

  class Verifier {
    const env: Env
    var configs: map<Track, Config>
    var tracks: map<Track, TrackState>
    var manifests: map<ManifestId, Delivery>
    var keyTracks: map<seq<byte>, Track>
    var nextRevision: u64
    var active: Option<Active>
    var reports: seq<SegmentReport>
    var failures: seq<Failure>

    ghost function View(): State
      reads this
    {
      State(configs, tracks, manifests, keyTracks, nextRevision, active, reports, failures)
    }

    constructor (env: Env)
      ensures this.env == env && View() == START
    {
      this.env := env;
      configs, tracks, manifests, keyTracks := map[], map[], map[], map[];
      nextRevision, active, reports, failures := 1, None, [], [];
    }

    method Fail(f: Failure)
      modifies this`failures
      ensures View() == old(View()).Fail(f)
    {
      failures := failures + [f];
    }

    method CurrentRevision() returns (n: u64)
      ensures n == View().CurrentRevision()
    {
      n := if nextRevision == 0 then 0 else nextRevision - 1;
    }

    method FinalizePending(t: Track)
      modifies this`tracks, this`reports
      ensures View() == ErtmpVerifier.FinalizePending(old(View()), t)
    {
      if t !in tracks || tracks[t].pending.None? {
        return;
      }
      var state := tracks[t];
      var p := state.pending.value;
      var last := if p.accepted.Some? then Some(p.accepted.value.sequence) else state.lastSequence;
      tracks := tracks[t := TrackState([], None, last)];
      reports := reports + [ReportOf(t, p)];
    }

    method OnConfig(t: Track, csid: u32, payload: seq<byte>) returns (r: Result<(), Fatal>)
      modifies this`configs, this`nextRevision
      ensures var after := ErtmpVerifier.OnConfig(old(View()), t, csid, payload);
              (r.Ok? <==> after.Ok?) && (r.Ok? ==> View() == after.value) && (r.Err? ==> r.error == after.error)
    {
      if t !in configs && |configs| >= MAX_TRACKS {
        return Err(TooManyTracks);
      }
      var revision := nextRevision;
      nextRevision := SaturatingNext(nextRevision);
      configs := configs[t := Config(csid, payload, revision)];
      r := Ok(());
    }

    method OnFrame(t: Track, csid: u32, timestamp: u32, offset: int, data: seq<byte>) returns (r: Result<(), Fatal>)
      modifies this`tracks, this`reports, this`failures
      ensures var after := ErtmpVerifier.OnFrame(old(View()), t, csid, timestamp, offset, data);
              (r.Ok? <==> after.Ok?) && (r.Ok? ==> View() == after.value) && (r.Err? ==> r.error == after.error)
    {
      FinalizePending(t);
      hide ErtmpVerifier.FinalizePending;
      r := Ok(());
      if !(-0x80_0000 <= offset < 0x80_0000) {
        Fail(OffsetOutOfRange(t));
        return;
      }
      var revision := CurrentRevision();
      if !(active.Some? && active.value.revision == revision && active.value.sinceReconnect) {
        Fail(FrameBeforeManifest);
      }
      if t !in configs {
        Fail(FrameBeforeConfig(t));
        return;
      }
      var config := configs[t];
      if config.csid != csid {
        Fail(FrameChunkStream(t));
      }
      var state := if t in tracks then tracks[t] else TrackState([], None, None);
      if |state.frames| >= MAX_FRAMES_PER_SEGMENT {
        return Err(TooManyFrames);
      }
      var f := FrameRecord(csid, timestamp, offset, data, config.revision);
      tracks := tracks[t := state.(frames := state.frames + [f])];
    }

    method OnManifest(t: Track, csid: u32, value: seq<byte>) returns (r: Result<(), Fatal>)
      modifies this`manifests, this`active, this`failures
      ensures var after := ErtmpVerifier.OnManifest(env, old(View()), t, csid, value);
              (r.Ok? <==> after.Ok?) && (r.Ok? ==> View() == after.value) && (r.Err? ==> r.error == after.error)
    {
      var revision := CurrentRevision();
      var parsed := env.parseManifest(value);
      if parsed.None? {
        return Err(BadManifest);
      }
      var (id, keys) := parsed.value;
      manifests := manifests[id := Delivery(value, keys, revision, None, None)];
      active := Some(Active(id, revision, true));
      if t in configs && configs[t].csid != csid {
        Fail(ManifestChunkStream(t));
      }
      r := Ok(());
    }

    method CheckCandidate(t: Track, csid: u32, timestamp: u32, cose: seq<byte>) returns (r: Result<SegmentInfo, CandidateError>)
      ensures r == ErtmpVerifier.CheckCandidate(env, View(), t, csid, timestamp, cose)
    {
      hide UntrustedSegmentInfo, Preimage;
      var read := UntrustedSegmentInfo(env.widen, cose);
      if read.Err? {
        return Err(Unreadable(read.error));
      }
      var info := read.value;
      if info.track != t {
        return Err(WrongTrack);
      }
      if t !in tracks {
        return Err(NoTrackState);
      }
      var state := tracks[t];
      if state.frames == [] {
        return Err(NoFrames);
      }
      if exists i :: 0 <= i < |state.frames| && state.frames[i].csid != csid {
        return Err(WrongChunkStream);
      }
      if state.frames[|state.frames| - 1].timestamp != timestamp {
        return Err(WrongTimestamp);
      }
      if t !in configs {
        return Err(NoConfig);
      }
      if exists i :: 0 <= i < |state.frames| && state.frames[i].revision != configs[t].revision {
        return Err(Reconfigured);
      }
      var preimage := CollectPreimage(state.frames);
      if env.sha(info.algorithm, preimage) != info.hash {
        return Err(WrongDigest);
      }
      if state.lastSequence.Some? && state.lastSequence.value + 1 != info.sequence {
        return Err(WrongSequence);
      }
      r := CheckActive(info);
    }

    method CheckActive(info: SegmentInfo) returns (r: Result<SegmentInfo, CandidateError>)
      ensures r == ErtmpVerifier.CheckActive(View(), info)
    {
      if active.None? {
        return Err(NoActiveManifest);
      }
      if info.manifestId != active.value.manifestId {
        return Err(NotActiveManifest);
      }
      if !active.value.sinceReconnect {
        return Err(NotResent);
      }
      var required := CurrentRevision();
      if active.value.revision != required {
        return Err(BeforeConfig);
      }
      if info.manifestId !in manifests {
        return Err(NotDelivered);
      }
      if manifests[info.manifestId].revision != required {
        return Err(DeliveredBeforeConfig);
      }
      r := Ok(info);
    }

    method Authenticate(t: Track, csid: u32, timestamp: u32, cose: seq<byte>) returns (r: Result<Accepted, CandidateError>)
      modifies this`manifests, this`keyTracks
      ensures (View(), r) == ErtmpVerifier.Authenticate(env, old(View()), t, csid, timestamp, cose)
    {
      hide ErtmpVerifier.CheckCandidate, FindKey, InitializationData;
      var checked := CheckCandidate(t, csid, timestamp, cose);
      if checked.Err? {
        return Err(checked.error);
      }
      var info := checked.value;
      if info.manifestId !in manifests {
        return Err(NotDelivered);
      }
      var initialization := CollectInitialization(configs);
      var d := Bind(env, manifests[info.manifestId], initialization);
      if d.Err? {
        return Err(d.error);
      }
      manifests := manifests[info.manifestId := d.value];
      var key := SearchKeys(env, keyTracks, d.value.keys, t, info, cose);
      if key.None? {
        return Err(NoKey);
      }
      var id := key.value.keyId;
      if id !in keyTracks {
        keyTracks := keyTracks[id := t];
      }
      r := Ok(Accepted(info.sequence, info.manifestId, id));
    }

    method OnSegmentInfo(t: Track, csid: u32, timestamp: u32, cose: seq<byte>) returns (r: Result<(), Fatal>)
      modifies this`tracks, this`manifests, this`keyTracks, this`failures
      ensures var after := ErtmpVerifier.OnSegmentInfo(env, old(View()), t, csid, timestamp, cose);
              (r.Ok? <==> after.Ok?) && (r.Ok? ==> View() == after.value) && (r.Err? ==> r.error == after.error)
    {
      hide ErtmpVerifier.Authenticate;
      var hasPending := t in tracks && tracks[t].pending.Some?;
      var hasFrames := t in tracks && tracks[t].frames != [];
      if !hasFrames && !hasPending {
        Fail(ClosesNothing(t));
        return Ok(());
      }
      if !hasPending {
        tracks := tracks[t := tracks[t].(pending := Some(Pending(0, None, [])))];
      }
      var p := tracks[t].pending.value;
      assert tracks == tracks[t := tracks[t].(pending := Some(p))];
      assert View() == WithPending(old(View()), t, p);
      if p.candidates >= MAX_SEGMENT_INFOS {
        return Err(TooManyCandidates);
      }
      var result := Authenticate(t, csid, timestamp, cose);
      tracks := tracks[t := tracks[t].(pending := Some(Record(p, result)))];
      r := Ok(());
    }

    method Reconnect()
      modifies this`tracks, this`reports, this`failures, this`configs, this`active
      ensures View() == Reconnected(old(View()))
    {
      hide InOrder, ErtmpVerifier.FinalizePending;
      var ts := OrderedTracks(tracks.Keys);
      for i := 0 to |ts|
        invariant View() == CloseAllAtReconnect(old(View()), ts[..i])
      {
        assert ts[..i + 1][..i] == ts[..i];
        FinalizePending(ts[i]);
        if ts[i] in tracks && tracks[ts[i]].frames != [] {
          Fail(OpenAtReconnect(ts[i]));
          tracks := tracks[ts[i] := tracks[ts[i]].(frames := [])];
        }
      }
      assert ts[..|ts|] == ts;
      configs := map[];
      active := match active case None => None case Some(a) => Some(a.(sinceReconnect := false));
    }

    method Event(e: Event) returns (r: Result<(), Fatal>)
      modifies this
      ensures var after := Step(env, old(View()), e);
              (r.Ok? <==> after.Ok?) && (r.Ok? ==> View() == after.value) && (r.Err? ==> r.error == after.error)
    {
      hide ErtmpVerifier.OnConfig, ErtmpVerifier.OnFrame, ErtmpVerifier.OnManifest, ErtmpVerifier.OnSegmentInfo, Reconnected;
      match e {
        case CodecConfig(t, csid, payload) => r := OnConfig(t, csid, payload);
        case Frame(t, csid, timestamp, offset, data) => r := OnFrame(t, csid, timestamp, offset, data);
        case Metadata(t, csid, timestamp, name, value) =>
          match name {
            case C2paManifest => r := OnManifest(t, csid, value);
            case C2paSegmentInfo => r := OnSegmentInfo(t, csid, timestamp, value);
            case OtherName(_) => r := Ok(());
          }
        case Reconnect =>
          Reconnect();
          r := Ok(());
      }
    }

    method Finish() returns (v: Verdict)
      modifies this`tracks, this`reports, this`failures
      ensures v == VerdictOf(Ended(old(View())))
    {
      hide InOrder, ErtmpVerifier.FinalizePending;
      var ts := OrderedTracks(tracks.Keys);
      for i := 0 to |ts|
        invariant View() == CloseAllAtEnd(old(View()), ts[..i])
      {
        assert ts[..i + 1][..i] == ts[..i];
        FinalizePending(ts[i]);
        if ts[i] in tracks && tracks[ts[i]].frames != [] {
          Fail(OpenAtEnd(ts[i]));
        }
      }
      assert ts[..|ts|] == ts;
      if reports == [] {
        Fail(NoSegment);
      }
      assert View() == Ended(old(View()));
      v := VerdictOf(State(configs, tracks, manifests, keyTracks, nextRevision, active, reports, failures));
    }
  }

  /** Verify a whole input, event by event. */
  method VerifyInput(env: Env, input: Input) returns (r: Result<Verdict, Fatal>)
    ensures r == Verify(env, input)
  {
    hide Step, Ended, VerdictOf;
    if |input.events| > MAX_EVENTS {
      return Err(TooManyEvents);
    }
    var verifier := new Verifier(env);
    if !input.Negotiated() {
      verifier.Fail(NotNegotiated);
    }
    var es := input.events;
    for i := 0 to |es|
      invariant Run(env, Begun(input), es[..i]) == Ok(verifier.View())
    {
      assert es[..i + 1][..i] == es[..i];
      var step := verifier.Event(es[i]);
      if step.Err? {
        RunStops(env, Begun(input), es, i + 1);
        return Err(step.error);
      }
    }
    assert es[..|es|] == es;
    var verdict := verifier.Finish();
    r := Ok(verdict);
  }

  /** Once a prefix fails the run fails with the same error. */
  lemma {:induction false} RunStops(env: Env, s: State, es: seq<Event>, n: nat)
    requires n <= |es| && Run(env, s, es[..n]).Err?
    ensures Run(env, s, es) == Run(env, s, es[..n])
    decreases |es| - n
  {
    hide Step;
    if n == |es| {
      assert es[..n] == es;
    } else {
      assert es[..n + 1][..n] == es[..n];
      RunStops(env, s, es, n + 1);
    }
  }
}
