/** When a SegmentInfo is accepted: exactly if the event list deserves it. */
module ErtmpAttempts {
  import opened Octets
  import opened ErtmpTypes
  import opened ErtmpSegmentInfo
  import opened ErtmpSegmentFields
  import opened ErtmpVerifier
  import opened ErtmpTimeline
  import opened ErtmpHistory
  import opened ErtmpEvidence
  import opened ErtmpInvariant
  import opened ErtmpReachable
  import opened ErtmpFailures

  // ---- Initialization data -------------------------------------------------------------------

  /** The configuration payloads of a list of tracks, one after another. */
  function Payloads(configs: map<Track, Config>, ts: seq<Track>): seq<byte> {
    if ts == [] then [] else (if ts[0] in configs then configs[ts[0]].payload else []) + Payloads(configs, ts[1..])
  }

  predicate ByRank(ts: seq<Track>) {
    forall i, j :: 0 <= i < j < |ts| ==> ts[i].Rank() < ts[j].Rank()
  }

  lemma {:induction false} PayloadsAppend(configs: map<Track, Config>, ts: seq<Track>, t: Track)
    requires t in configs
    ensures Payloads(configs, ts + [t]) == Payloads(configs, ts) + configs[t].payload
  {
    if ts == [] {
      assert [t][1..] == [];
    } else {
      assert (ts + [t])[1..] == ts[1..] + [t];
      PayloadsAppend(configs, ts[1..], t);
    }
  }

  lemma {:induction false} InitializationMeans(configs: map<Track, Config>, rank: nat)
    requires rank <= TRACKS
    ensures InitializationBelow(configs, rank) == Payloads(configs, TracksBelow(configs.Keys, rank))
  {
    if rank != 0 {
      hide Payloads;
      InitializationMeans(configs, rank - 1);
      var front, last := TracksBelow(configs.Keys, rank - 1), TrackAt(rank - 1);
      if last in configs {
        PayloadsAppend(configs, front, last);
      } else {
        assert front + [] == front;
      }
    }
  }

  /** The initialization data are the payloads of exactly the configured tracks, video before audio, then by id. */
  lemma InitializationExact(configs: map<Track, Config>)
    ensures var ts := InOrder(configs.Keys);
            && ByRank(ts) && (forall t :: t in ts <==> t in configs)
            && InitializationData(configs) == Payloads(configs, ts)
  {
    hide InitializationBelow, TracksBelow, Payloads;
    OrderExact(configs.Keys);
    InitializationMeans(configs, TRACKS);
  }

  // ---- Keys -------------------------------------------------------------------------------------

  /** The key vouches for the message and no other track owns it. */
  predicate Fits(env: Env, keyTracks: map<seq<byte>, Track>, key: SessionKey, t: Track, info: SegmentInfo, cose: seq<byte>) {
    Vouches(env, key, info, cose) && (key.keyId in keyTracks ==> keyTracks[key.keyId] == t)
  }

  /** The first fitting key is found, and none exactly if none fits. */
  lemma {:induction false} FindKeyExact(env: Env, keyTracks: map<seq<byte>, Track>, keys: seq<SessionKey>, t: Track, info: SegmentInfo, cose: seq<byte>)
    ensures var found := FindKey(env, keyTracks, keys, t, info, cose);
            && (found.None? <==> forall i :: 0 <= i < |keys| ==> !Fits(env, keyTracks, keys[i], t, info, cose))
            && (found.Some? ==> exists i ::
                  && 0 <= i < |keys| && keys[i] == found.value && Fits(env, keyTracks, keys[i], t, info, cose)
                  && forall j :: 0 <= j < i ==> !Fits(env, keyTracks, keys[j], t, info, cose))
  {
    hide KeyAccepts, Vouches;
    if keys != [] {
      KeyAcceptsMeans(env, keyTracks, keys[0], t, info, cose);
      if KeyAccepts(env, keyTracks, keys[0], t, info, cose) {
        assert Fits(env, keyTracks, keys[0], t, info, cose);
      } else {
        var rest := keys[1..];
        FindKeyExact(env, keyTracks, rest, t, info, cose);
        hide Fits;
        assert forall i :: 1 <= i < |keys| ==> keys[i] == rest[i - 1];
        var found := FindKey(env, keyTracks, keys, t, info, cose);
        if found.Some? {
          var i :| 0 <= i < |rest| && rest[i] == found.value && Fits(env, keyTracks, rest[i], t, info, cose)
            && forall j :: 0 <= j < i ==> !Fits(env, keyTracks, rest[j], t, info, cose);
          assert keys[i + 1] == found.value;
          forall j | 0 <= j < i + 1 ensures !Fits(env, keyTracks, keys[j], t, info, cose) {
            if j > 0 {
              assert keys[j] == rest[j - 1];
            }
          }
        }
      }
    }
  }

  // ---- The checks ---------------------------------------------------------------------------------

  /** A configured track stays configured, and unless it is configured again stays the same. */
  lemma {:induction false} ConfigStays(es: seq<Event>, i: nat, n: nat, t: Track)
    requires i <= n <= |es| < TWO64 - 1 && t in ConfigsOf(es, i) && NoReconnect(es, i, n)
    ensures t in ConfigsOf(es, n)
    ensures NoConfigOn(es, t, i, n) ==> ConfigsOf(es, n)[t] == ConfigsOf(es, i)[t]
    decreases n
  {
    if i < n {
      ConfigStays(es, i, n - 1, t);
    }
  }

  /** Frames that the event list backs pass every check on frames. */
  lemma FramesPass(env: Env, es: seq<Event>, n: nat, s: State, h: History, t: Track, info: SegmentInfo)
    requires n < |es| < TWO64 - 1 && es[n].IsSegmentInfo() && es[n].track == t && Ready(env, es, n, s, h, t)
    requires FramesEvidence(env, es, t, h.Open(t), n, info)
    ensures var st := s.Get(t);
            && info.track == t && st.frames != [] && t in s.configs
            && (forall i :: 0 <= i < |st.frames| ==> st.frames[i].csid == es[n].csid && st.frames[i].revision == s.configs[t].revision)
            && st.frames[|st.frames| - 1].timestamp == es[n].timestamp
            && env.sha(info.algorithm, Preimage(st.frames)) == info.hash
  {
    hide Preimage, EventPreimage, ConfigsOf, DeliveryInv, ActiveOf;
    var frames, open := s.Get(t).frames, h.Open(t);
    PreimageOfEvents(es, n, t, frames, open);
    forall k | 0 <= k < |open|
      ensures frames[k].csid == es[n].csid && frames[k].timestamp == es[open[k]].timestamp
      ensures t in s.configs && frames[k].revision == s.configs[t].revision
    {
      assert FrameAt(es, n, t, frames[k], open[k]);
      assert open[0] <= open[k];
      ConfigStays(es, open[k], n, t);
    }
  }

  /** The checks before validation pass exactly if the message carries a segment that describes the open frames, follows the
      last number and names a fresh manifest. */
  lemma CheckExact(env: Env, es: seq<Event>, n: nat, s: State, h: History, t: Track, info: SegmentInfo)
    requires n < |es| < TWO64 - 1 && es[n].IsSegmentInfo() && es[n].track == t && Ready(env, es, n, s, h, t) && t in s.tracks
    ensures CheckCandidate(env, s, t, es[n].csid, es[n].timestamp, es[n].value) == Ok(info) <==>
            && Carries(env.widen, es[n].value, info)
            && FramesEvidence(env, es, t, h.Open(t), n, info)
            && Follows(s.Get(t).lastSequence, info.sequence)
            && CheckActive(s, info) == Ok(info)
  {
    hide UntrustedSegmentInfo, FramesEvidence, Carries, CheckActive, Preimage, Ready;
    SegmentInfoExact(env.widen, es[n].value, info);
    if CheckCandidate(env, s, t, es[n].csid, es[n].timestamp, es[n].value) == Ok(info) {
      CandidateFrames(env, es, n, s, h, t);
      CandidateChecked(env, s, t, es[n].csid, es[n].timestamp, es[n].value);
    }
    if UntrustedSegmentInfo(env.widen, es[n].value) == Ok(info) && FramesEvidence(env, es, t, h.Open(t), n, info) {
      FramesPass(env, es, n, s, h, t, info);
    }
  }

  /** The manifest named is the one last delivered, with nothing reconnected or configured since. */
  ghost predicate NamesFresh(env: Env, es: seq<Event>, n: nat, info: SegmentInfo)
    requires n <= |es|
  {
    && ManifestFresh(es, n)
    && var store := es[LastManifest(es, n).value].value;
       env.parseManifest(store).Some? && env.parseManifest(store).value.0 == info.manifestId
  }

  lemma ActiveExact(env: Env, es: seq<Event>, n: nat, s: State, h: History, info: SegmentInfo)
    requires n <= |es| < TWO64 - 1 && ClockInv(env, es, n, s) && DeliveryInv(env, es, n, s, h) && RevisionAgrees(s)
    ensures CheckActive(s, info) == Ok(info) <==> NamesFresh(env, es, n, info)
  {
    InForceMeans(env, es, n, s);
    ActiveExactly(env, es, n);
    hide ConfigsOf, ActiveOf, BoundEvidence, ManifestFresh, NumConfigs;
    assert s.active == ActiveOf(env, es, n);
    FreshHasManifest(es, n);
  }

  lemma FreshHasManifest(es: seq<Event>, n: nat)
    requires n <= |es|
    ensures ManifestFresh(es, n) ==> LastManifest(es, n).Some?
  {
  }

  /** Binding succeeds exactly if the manifest validates against the data in force. */
  lemma BindExact(env: Env, es: seq<Event>, n: nat, s: State, h: History, info: SegmentInfo)
    requires n < |es| < TWO64 - 1 && ClockInv(env, es, n, s) && DeliveryInv(env, es, n, s, h) && CheckActive(s, info) == Ok(info)
    ensures LastManifest(es, n).Some?
    ensures Bind(env, s.manifests[info.manifestId], InitializationData(s.configs)).Ok? <==>
            env.validate(InitializationAt(es, n), es[LastManifest(es, n).value].value) == Some(Report(true, true))
  {
    hide InitializationData, ConfigsOf, ActiveOf;
    ActiveIsLast(env, es, n);
    NumConfigsMonotone(es, LastManifest(es, n).value, n);
    var d := s.manifests[info.manifestId];
    if d.bound.Some? {
      ConfigsSteady(es, h.boundAt, n);
    }
  }

  // ---- Attempts ---------------------------------------------------------------------------------------

  /** What a message at event `n` must be to have its manifest validated: it describes the open frames of its track, follows the
      last number and names a fresh manifest, which is valid for the data in force. */
  ghost predicate Reaches(env: Env, es: seq<Event>, n: nat, open: seq<nat>, last: Option<u64>, info: SegmentInfo)
    requires n < |es| < TWO64 - 1 && es[n].IsSegmentInfo()
  {
    && Carries(env.widen, es[n].value, info)
    && FramesEvidence(env, es, es[n].track, open, n, info)
    && Follows(last, info.sequence)
    && NamesFresh(env, es, n, info)
    && env.validate(InitializationAt(es, n), es[LastManifest(es, n).value].value) == Some(Report(true, true))
  }

  /** What it must be to close them: some key of that manifest vouches for it too. */
  ghost predicate Deserves(env: Env, es: seq<Event>, n: nat, open: seq<nat>, last: Option<u64>, owners: map<seq<byte>, Track>, info: SegmentInfo)
    requires n < |es| < TWO64 - 1 && es[n].IsSegmentInfo()
  {
    && Reaches(env, es, n, open, last, info)
    && var keys := env.parseManifest(es[LastManifest(es, n).value].value).value.1;
       exists i :: 0 <= i < |keys| && Fits(env, owners, keys[i], es[n].track, info, es[n].value)
  }

  lemma AuthenticateParts(env: Env, s: State, t: Track, csid: u32, timestamp: u32, cose: seq<byte>)
    ensures var checked := CheckCandidate(env, s, t, csid, timestamp, cose);
            Authenticate(env, s, t, csid, timestamp, cose).1.Ok? <==>
              && checked.Ok? && checked.value.manifestId in s.manifests
              && var d := Bind(env, s.manifests[checked.value.manifestId], InitializationData(s.configs));
                 d.Ok? && FindKey(env, s.keyTracks, d.value.keys, t, checked.value, cose).Some?
    ensures var (s', result) := Authenticate(env, s, t, csid, timestamp, cose);
            if result.Err? then s'.keyTracks == s.keyTracks else s'.keyTracks == s.keyTracks[result.value.keyId := t]
  {
    hide CheckCandidate, Bind, InitializationData;
    var checked := CheckCandidate(env, s, t, csid, timestamp, cose);
    if Authenticate(env, s, t, csid, timestamp, cose).1.Ok? {
      var d := Bind(env, s.manifests[checked.value.manifestId], InitializationData(s.configs)).value;
      FoundKeyAccepts(env, s.keyTracks, d.keys, t, checked.value, cose);
      var id := FindKey(env, s.keyTracks, d.keys, t, checked.value, cose).value.keyId;
      if id in s.keyTracks {
        assert s.keyTracks[id := t] == s.keyTracks;
      }
    }
  }

  lemma BindKeepsKeys(env: Env, d: Delivery, data: seq<byte>)
    ensures Bind(env, d, data).Ok? ==> Bind(env, d, data).value.keys == d.keys
  {
  }

  lemma ActiveStored(s: State, info: SegmentInfo)
    requires CheckActive(s, info) == Ok(info)
    ensures info.manifestId in s.manifests && s.active.Some? && s.active.value.manifestId == info.manifestId
  {
  }

  /** At a state that agrees with the event list, an attempt succeeds if and only if some segment is deserved. */
  lemma AttemptExact(env: Env, es: seq<Event>, n: nat, s: State, h: History)
    requires n < |es| < TWO64 - 1 && es[n].IsSegmentInfo() && Ready(env, es, n, s, h, es[n].track)
    requires RevisionAgrees(s) && es[n].track in s.tracks
    ensures Authenticate(env, s, es[n].track, es[n].csid, es[n].timestamp, es[n].value).1.Ok? <==>
            exists info :: Deserves(env, es, n, h.Open(es[n].track), s.Get(es[n].track).lastSequence, s.keyTracks, info)
  {
    var e, t := es[n], es[n].track;
    AuthenticateParts(env, s, t, e.csid, e.timestamp, e.value);
    forall info ensures Deserves(env, es, n, h.Open(t), s.Get(t).lastSequence, s.keyTracks, info) <==>
      CheckCandidate(env, s, t, e.csid, e.timestamp, e.value) == Ok(info) && info.manifestId in s.manifests
      && var d := Bind(env, s.manifests[info.manifestId], InitializationData(s.configs));
         d.Ok? && FindKey(env, s.keyTracks, d.value.keys, t, info, e.value).Some?
    {
      DeservesMeans(env, es, n, s, h, info);
    }
    hide Authenticate, CheckCandidate, Deserves, Bind, FindKey, InitializationData, Ready;
    var checked := CheckCandidate(env, s, t, e.csid, e.timestamp, e.value);
    if Authenticate(env, s, t, e.csid, e.timestamp, e.value).1.Ok? {
      assert Deserves(env, es, n, h.Open(t), s.Get(t).lastSequence, s.keyTracks, checked.value);
    }
  }

  lemma ReachesMeans(env: Env, es: seq<Event>, n: nat, s: State, h: History, info: SegmentInfo)
    requires n < |es| < TWO64 - 1 && es[n].IsSegmentInfo() && Ready(env, es, n, s, h, es[n].track)
    requires RevisionAgrees(s) && es[n].track in s.tracks
    ensures Reaches(env, es, n, h.Open(es[n].track), s.Get(es[n].track).lastSequence, info) <==>
            && CheckCandidate(env, s, es[n].track, es[n].csid, es[n].timestamp, es[n].value) == Ok(info) && info.manifestId in s.manifests
            && Bind(env, s.manifests[info.manifestId], InitializationData(s.configs)).Ok?
  {
    hide CheckCandidate, Bind, InitializationData, FramesEvidence, Carries, ClockInv, CheckActive, RevisionAgrees, FramesMatch;
    CheckExact(env, es, n, s, h, es[n].track, info);
    ActiveExact(env, es, n, s, h, info);
    if CheckActive(s, info) == Ok(info) {
      ActiveStored(s, info);
      BindExact(env, es, n, s, h, info);
    }
  }

  lemma DeservesMeans(env: Env, es: seq<Event>, n: nat, s: State, h: History, info: SegmentInfo)
    requires n < |es| < TWO64 - 1 && es[n].IsSegmentInfo() && Ready(env, es, n, s, h, es[n].track)
    requires RevisionAgrees(s) && es[n].track in s.tracks
    ensures Deserves(env, es, n, h.Open(es[n].track), s.Get(es[n].track).lastSequence, s.keyTracks, info) <==>
            && CheckCandidate(env, s, es[n].track, es[n].csid, es[n].timestamp, es[n].value) == Ok(info) && info.manifestId in s.manifests
            && var d := Bind(env, s.manifests[info.manifestId], InitializationData(s.configs));
               d.Ok? && FindKey(env, s.keyTracks, d.value.keys, es[n].track, info, es[n].value).Some?
  {
    hide CheckCandidate, Bind, FindKey, InitializationData, Reaches, ClockInv, CheckActive, RevisionAgrees, Fits, FramesMatch;
    ReachesMeans(env, es, n, s, h, info);
    CheckExact(env, es, n, s, h, es[n].track, info);
    if Reaches(env, es, n, h.Open(es[n].track), s.Get(es[n].track).lastSequence, info) {
      ActiveStored(s, info);
      BindExact(env, es, n, s, h, info);
      BindKeepsKeys(env, s.manifests[info.manifestId], InitializationData(s.configs));
      FindKeyExact(env, s.keyTracks, s.manifests[info.manifestId].keys, es[n].track, info, es[n].value);
    }
  }

  /** In every run, at every SegmentInfo with something to close: the attempt succeeds if and only if the event list, the
      track's last number and the owners of keys deserve it. */
  lemma EveryAttemptExact(env: Env, s0: State, es: seq<Event>, n: nat)
    requires n < |es| < TWO64 - 1 && s0.(failures := []) == START && HRun(env, s0, es, n).Some? && es[n].IsSegmentInfo()
    ensures var (s, h) := HRun(env, s0, es, n).value;
            var t := es[n].track;
            && s.Get(t).lastSequence == LastSequence(s.reports, t)
            && (Authenticate(env, WithPending(s, t, PendingOf(s, t)), t, es[n].csid, es[n].timestamp, es[n].value).1.Ok? <==>
                exists info :: Deserves(env, es, n, h.Open(t), LastSequence(s.reports, t), s.keyTracks, info))
  {
    hide HRun, Deserves, Authenticate, RevisionAgrees, NoneDead;
    InvHolds(env, s0, es, n);
    RunLive(env, s0, es, n);
    var (s, h) := HRun(env, s0, es, n).value;
    var t := es[n].track;
    var s1 := WithPending(s, t, PendingOf(s, t));
    assert TrackInv(env, es, n, s, h, t);
    SameClock(env, es, n, s, s1);
    SameDeliveryNow(env, es, n, s, h, s1);
    SameRevisions(s, s1);
    AttemptExact(env, es, n, s1, h);
  }

  lemma SameRevisions(a: State, b: State)
    requires RevisionAgrees(a) && a.manifests == b.manifests && a.active == b.active
    ensures RevisionAgrees(b)
  {
  }
}
