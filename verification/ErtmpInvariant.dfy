/** What every step of the verifier keeps. */
module ErtmpInvariant {
  import opened Octets
  import opened ErtmpTypes
  import opened ErtmpSegmentInfo
  import opened ErtmpVerifier
  import opened ErtmpTimeline
  import opened ErtmpHistory
  import opened ErtmpEvidence

  predicate Follows(last: Option<u64>, sequence: u64) {
    last.Some? ==> last.value + 1 == sequence
  }

  predicate Owned(keyTracks: map<seq<byte>, Track>, keyId: seq<byte>, t: Track) {
    keyId in keyTracks && keyTracks[keyId] == t
  }

  /** An acceptance that is backed by the event list, before time `n`. */
  ghost predicate Backed(env: Env, es: seq<Event>, n: nat, t: Track, frames: seq<nat>, acc: Option<Acceptance>, a: Accepted)
    requires |es| < TWO64 - 1
  {
    acc.Some? && acc.value.at < n && Evidence(env, es, t, frames, acc.value, a)
  }

  ghost predicate PendingOk(env: Env, es: seq<Event>, n: nat, s: State, h: History, t: Track)
    requires |es| < TWO64 - 1
  {
    var p := s.Get(t).pending;
    p.Some? && p.value.accepted.Some? ==>
      var a := p.value.accepted.value;
      && Backed(env, es, n, t, h.Open(t), h.AcceptedOn(t), a)
      && Follows(s.Get(t).lastSequence, a.sequence)
      && Owned(s.keyTracks, a.keyId, t)
  }

  ghost predicate TrackInv(env: Env, es: seq<Event>, n: nat, s: State, h: History, t: Track)
    requires n <= |es| < TWO64 - 1
  {
    FramesMatch(es, n, t, s.Get(t).frames, h.Open(t)) && PendingOk(env, es, n, s, h, t)
  }

  ghost predicate ReportOk(env: Env, es: seq<Event>, n: nat, r: SegmentReport, c: Closure, keyTracks: map<seq<byte>, Track>)
    requires |es| < TWO64 - 1
  {
    && r.track == c.track
    && (r.accepted.Some? <==> c.acceptance.Some?)
    && (r.accepted.Some? ==>
          && Backed(env, es, n, r.track, c.frames, c.acceptance, r.accepted.value)
          && Owned(keyTracks, r.accepted.value.keyId, r.track))
  }

  ghost predicate ReportsInv(env: Env, es: seq<Event>, n: nat, s: State, h: History)
    requires |es| < TWO64 - 1
  {
    && |s.reports| == |h.closures|
    && forall i :: 0 <= i < |s.reports| ==> ReportOk(env, es, n, s.reports[i], h.closures[i], s.keyTracks)
  }

  /** Sequence number of the latest valid segment of a track. */
  function LastSequence(reports: seq<SegmentReport>, t: Track): Option<u64> {
    if reports == [] then None
    else
      var r := reports[|reports| - 1];
      if r.track == t && r.Valid() then Some(r.accepted.value.sequence) else LastSequence(reports[..|reports| - 1], t)
  }

  /** Each valid segment is numbered one above the previous valid segment of its track. */
  predicate Disciplined(reports: seq<SegmentReport>) {
    reports == [] ||
    var r, earlier := reports[|reports| - 1], reports[..|reports| - 1];
    Disciplined(earlier) && (r.Valid() ==> Follows(LastSequence(earlier, r.track), r.accepted.value.sequence))
  }

  ghost predicate SequenceInv(s: State) {
    Disciplined(s.reports) && forall t :: s.Get(t).lastSequence == LastSequence(s.reports, t)
  }

  ghost predicate BodyInv(env: Env, es: seq<Event>, n: nat, s: State, h: History)
    requires n <= |es| < TWO64 - 1
  {
    && (forall t :: TrackInv(env, es, n, s, h, t))
    && ReportsInv(env, es, n, s, h)
    && SequenceInv(s)
  }

  ghost predicate Inv(env: Env, es: seq<Event>, n: nat, s: State, h: History)
    requires n <= |es| < TWO64 - 1
  {
    ClockInv(env, es, n, s) && DeliveryInv(env, es, n, s, h) && BodyInv(env, es, n, s, h)
  }

  // ---- Closing a segment ------------------------------------------------------------

  lemma FinalizeReports(env: Env, es: seq<Event>, n: nat, s: State, h: History, t: Track)
    requires n <= |es| < TWO64 - 1 && BodyInv(env, es, n, s, h)
    ensures ReportsInv(env, es, n, FinalizePending(s, t), HFinalize(s, h, t))
  {
    hide Evidence, FramesMatch, SequenceInv;
    var s', h' := FinalizePending(s, t), HFinalize(s, h, t);
    assert TrackInv(env, es, n, s, h, t);
    forall i | 0 <= i < |s'.reports| ensures ReportOk(env, es, n, s'.reports[i], h'.closures[i], s'.keyTracks) {
      if i < |s.reports| {
        assert ReportOk(env, es, n, s.reports[i], h.closures[i], s.keyTracks);
      }
    }
  }

  lemma FinalizeTracks(env: Env, es: seq<Event>, n: nat, s: State, h: History, t: Track, u: Track)
    requires n <= |es| < TWO64 - 1 && TrackInv(env, es, n, s, h, u)
    ensures TrackInv(env, es, n, FinalizePending(s, t), HFinalize(s, h, t), u)
  {
    hide Evidence;
  }

  lemma FinalizeSequence(s: State, t: Track)
    requires SequenceInv(s)
    requires s.Get(t).pending.Some? && s.Get(t).pending.value.accepted.Some? ==>
               Follows(s.Get(t).lastSequence, s.Get(t).pending.value.accepted.value.sequence)
    ensures SequenceInv(FinalizePending(s, t))
  {
    var s' := FinalizePending(s, t);
    if s.Get(t).pending.Some? {
      assert s'.reports[..|s'.reports| - 1] == s.reports;
      forall u ensures s'.Get(u).lastSequence == LastSequence(s'.reports, u) {
        assert s.Get(u).lastSequence == LastSequence(s.reports, u);
      }
    }
  }

  lemma FinalizeBody(env: Env, es: seq<Event>, n: nat, s: State, h: History, t: Track)
    requires n <= |es| < TWO64 - 1 && BodyInv(env, es, n, s, h)
    ensures BodyInv(env, es, n, FinalizePending(s, t), HFinalize(s, h, t))
  {
    FinalizeReports(env, es, n, s, h, t);
    assert TrackInv(env, es, n, s, h, t);
    FinalizeSequence(s, t);
    hide FinalizePending, HFinalize, FramesMatch, PendingOk, ReportsInv, SequenceInv;
    forall u ensures TrackInv(env, es, n, FinalizePending(s, t), HFinalize(s, h, t), u) {
      assert TrackInv(env, es, n, s, h, u);
      FinalizeTracks(env, es, n, s, h, t, u);
    }
  }

  // ---- Time passing -------------------------------------------------------------------

  lemma LaterBody(env: Env, es: seq<Event>, n: nat, s: State, h: History)
    requires n < |es| < TWO64 - 1 && BodyInv(env, es, n, s, h) && !es[n].Reconnect?
    ensures BodyInv(env, es, n + 1, s, h)
  {
    hide Evidence, SequenceInv, FramesMatch;
    var later := n + 1;
    forall t ensures TrackInv(env, es, later, s, h, t) {
      assert TrackInv(env, es, n, s, h, t);
      FramesMatchLater(es, n, t, s.Get(t).frames, h.Open(t));
    }
    forall i | 0 <= i < |s.reports| ensures ReportOk(env, es, n + 1, s.reports[i], h.closures[i], s.keyTracks) {
      assert ReportOk(env, es, n, s.reports[i], h.closures[i], s.keyTracks);
    }
  }

  /** The body of the invariant does not read configurations, manifests, failures or the clock. */
  predicate SameBody(a: State, b: State) {
    a.tracks == b.tracks && a.keyTracks == b.keyTracks && a.reports == b.reports
  }

  lemma SameBodyInv(env: Env, es: seq<Event>, n: nat, a: State, b: State, h: History)
    requires n <= |es| < TWO64 - 1 && BodyInv(env, es, n, a, h) && SameBody(a, b)
    ensures BodyInv(env, es, n, b, h)
  {
    hide Evidence, FramesMatch, LastSequence, Disciplined;
    forall t ensures TrackInv(env, es, n, b, h, t) && b.Get(t).lastSequence == LastSequence(b.reports, t) {
      assert TrackInv(env, es, n, a, h, t);
      assert a.Get(t).lastSequence == LastSequence(a.reports, t);
    }
  }

  // ---- A frame ----------------------------------------------------------------------------

  function RecordedFrame(e: Event, revision: u64): FrameRecord
    requires e.Frame?
  {
    FrameRecord(e.csid, e.timestamp, e.offset, e.data, revision)
  }

  /** Event `n` becomes the last open frame of its track. */
  predicate FrameAdded(es: seq<Event>, n: nat, s: State, h: History, s': State, h': History)
    requires n < |es| && es[n].Frame?
  {
    var t := es[n].track;
    && t in s.configs && s.Get(t).pending.None?
    && s'.tracks == s.tracks[t := s.Get(t).(frames := s.Get(t).frames + [RecordedFrame(es[n], s.configs[t].revision)])]
    && s'.keyTracks == s.keyTracks && s'.reports == s.reports
    && h' == h.(open := h.open[t := h.Open(t) + [n]])
  }

  lemma AddFrameTrack(env: Env, es: seq<Event>, n: nat, s: State, h: History, s': State, h': History, u: Track)
    requires n < |es| < TWO64 - 1 && es[n].Frame? && ClockInv(env, es, n, s) && FrameAdded(es, n, s, h, s', h')
    requires TrackInv(env, es, n, s, h, u)
    ensures TrackInv(env, es, n + 1, s', h', u) && s'.Get(u).lastSequence == s.Get(u).lastSequence
  {
    hide Evidence, FramesMatch, ClockInv;
    var frames, open := s.Get(u).frames, h.Open(u);
    FramesMatchLater(es, n, u, frames, open);
    if u == es[n].track {
      OpenBefore(es, n, u, frames, open);
      OneMoreFrame(env, es, n, s, frames, open);
    }
  }

  lemma FrameAddedKeeps(es: seq<Event>, n: nat, s: State, h: History, s': State, h': History)
    requires n < |es| && es[n].Frame? && FrameAdded(es, n, s, h, s', h')
    ensures s'.keyTracks == s.keyTracks && s'.reports == s.reports && h'.closures == h.closures
    ensures forall k :: k in s.keyTracks ==> Owned(s'.keyTracks, k, s.keyTracks[k])
  {
  }

  lemma AddFrame(env: Env, es: seq<Event>, n: nat, s: State, h: History, s': State, h': History)
    requires n < |es| < TWO64 - 1 && es[n].Frame? && BodyInv(env, es, n, s, h) && ClockInv(env, es, n, s)
    requires FrameAdded(es, n, s, h, s', h')
    ensures BodyInv(env, es, n + 1, s', h')
  {
    hide SequenceInv, ClockInv, ReportsInv, TrackInv;
    FrameAddedKeeps(es, n, s, h, s', h');
    hide FrameAdded;
    LaterReports(env, es, n, s, h, s', h');
    var later := n + 1;
    forall u ensures TrackInv(env, es, later, s', h', u) && s'.Get(u).lastSequence == s.Get(u).lastSequence {
      assert TrackInv(env, es, n, s, h, u);
      AddFrameTrack(env, es, n, s, h, s', h', u);
    }
    SameSequence(s, s');
  }

  lemma SameSequence(a: State, b: State)
    requires SequenceInv(a) && a.reports == b.reports
    requires forall t :: b.Get(t).lastSequence == a.Get(t).lastSequence
    ensures SequenceInv(b)
  {
    hide LastSequence, Disciplined;
    forall t ensures b.Get(t).lastSequence == LastSequence(b.reports, t) {
      assert a.Get(t).lastSequence == LastSequence(a.reports, t);
    }
  }

  lemma LaterReports(env: Env, es: seq<Event>, n: nat, a: State, h: History, b: State, h': History)
    requires n < |es| < TWO64 - 1 && ReportsInv(env, es, n, a, h)
    requires a.reports == b.reports && h.closures == h'.closures
    requires forall k :: k in a.keyTracks ==> Owned(b.keyTracks, k, a.keyTracks[k])
    ensures ReportsInv(env, es, n + 1, b, h')
  {
    hide Evidence;
    forall i | 0 <= i < |b.reports| ensures ReportOk(env, es, n + 1, b.reports[i], h'.closures[i], b.keyTracks) {
      assert ReportOk(env, es, n, a.reports[i], h.closures[i], a.keyTracks);
    }
  }

  lemma OneMoreFrame(env: Env, es: seq<Event>, n: nat, s: State, frames: seq<FrameRecord>, open: seq<nat>)
    requires n < |es| < TWO64 - 1 && es[n].Frame? && ClockInv(env, es, n, s) && es[n].track in s.configs
    requires FramesMatch(es, n + 1, es[n].track, frames, open) && (forall k :: 0 <= k < |open| ==> open[k] < n)
    ensures FramesMatch(es, n + 1, es[n].track, frames + [RecordedFrame(es[n], s.configs[es[n].track].revision)], open + [n])
  {
  }

  lemma OpenBefore(es: seq<Event>, n: nat, t: Track, frames: seq<FrameRecord>, open: seq<nat>)
    requires n <= |es| < TWO64 - 1 && FramesMatch(es, n, t, frames, open)
    ensures forall k :: 0 <= k < |open| ==> open[k] < n
  {
    forall k | 0 <= k < |open| ensures open[k] < n {
      assert FrameAt(es, n, t, frames[k], open[k]);
    }
  }

  lemma FinalizedHasNoPending(s: State, t: Track)
    ensures FinalizePending(s, t).Get(t).pending.None?
    ensures SameShared(FinalizePending(s, t), s)
  {
  }

  lemma FrameBody(env: Env, es: seq<Event>, n: nat, s: State, h: History)
    requires n < |es| < TWO64 - 1 && es[n].Frame? && Inv(env, es, n, s, h) && Step(env, s, es[n]).Ok?
    ensures BodyInv(env, es, n + 1, Step(env, s, es[n]).value, HStep(env, s, h, es[n], n))
  {
    var e := es[n];
    var t := e.track;
    FinalizeBody(env, es, n, s, h, t);
    FinalizedHasNoPending(s, t);
    var s1, h1 := FinalizePending(s, t), HFinalize(s, h, t);
    hide BodyInv, DeliveryInv, FinalizePending, HFinalize, FrameFailures;
    var s' := Step(env, s, e).value;
    if Recorded(s, t, e.offset) {
      assert ClockInv(env, es, n, s1);
      AddFrame(env, es, n, s1, h1, s', HStep(env, s, h, e, n));
    } else {
      LaterBody(env, es, n, s1, h1);
      SameBodyInv(env, es, n + 1, s1, s', h1);
    }
  }

  // ---- A SegmentInfo -------------------------------------------------------------------------

  /** What an attempt may change, and what a success guarantees. */
  lemma AttemptEffect(env: Env, s: State, t: Track, csid: u32, timestamp: u32, cose: seq<byte>)
    ensures var (s', result) := Authenticate(env, s, t, csid, timestamp, cose);
            && s'.tracks == s.tracks && s'.reports == s.reports && s'.failures == s.failures
            && s'.configs == s.configs && s'.active == s.active && s'.nextRevision == s.nextRevision
            && (forall k :: k in s.keyTracks ==> Owned(s'.keyTracks, k, s.keyTracks[k]))
            && (result.Ok? ==> Owned(s'.keyTracks, result.value.keyId, t))
  {
    hide CheckCandidate, Bind, InitializationData;
    var checked := CheckCandidate(env, s, t, csid, timestamp, cose);
    if checked.Ok? && checked.value.manifestId in s.manifests {
      var d := Bind(env, s.manifests[checked.value.manifestId], InitializationData(s.configs));
      if d.Ok? && FindKey(env, s.keyTracks, d.value.keys, t, checked.value, cose).Some? {
        FoundKeyAccepts(env, s.keyTracks, d.value.keys, t, checked.value, cose);
      }
    }
  }

  /** A successful attempt at event `n` is backed by the event list. */
  lemma AttemptEvidence(env: Env, es: seq<Event>, n: nat, s: State, h: History, boundAt: nat)
    requires n < |es| < TWO64 - 1 && es[n].IsSegmentInfo() && Ready(env, es, n, s, h, es[n].track)
    requires Authenticate(env, s, es[n].track, es[n].csid, es[n].timestamp, es[n].value).1.Ok?
    requires s.active.Some? && s.active.value.manifestId in s.manifests ==>
               boundAt == if s.manifests[s.active.value.manifestId].bound.None? then n else h.boundAt
    ensures var t, a := es[n].track, Authenticate(env, s, es[n].track, es[n].csid, es[n].timestamp, es[n].value).1.value;
            && Evidence(env, es, t, h.Open(t), Acceptance(n, boundAt), a)
            && Follows(s.Get(t).lastSequence, a.sequence)
  {
    hide CheckCandidate, FramesEvidence, ManifestEvidence, Bind, UntrustedSegmentInfo, InitializationData, KeyAccepts;
    var t, e := es[n].track, es[n];
    var info := CheckCandidate(env, s, t, e.csid, e.timestamp, e.value).value;
    CandidateChecked(env, s, t, e.csid, e.timestamp, e.value);
    CandidateFrames(env, es, n, s, h, t);
    var d := Bind(env, s.manifests[info.manifestId], InitializationData(s.configs)).value;
    CandidateManifest(env, es, n, s, h, info, d, boundAt);
    FoundKeyAccepts(env, s.keyTracks, d.keys, t, info, e.value);
    var key := FindKey(env, s.keyTracks, d.keys, t, info, e.value).value;
    KeyAcceptsMeans(env, s.keyTracks, key, t, info, e.value);
    assert KeyEvidence(env, es, n, info, key.keyId) by {
      assert key in env.parseManifest(es[LastManifest(es, n).value].value).value.1;
      InfoTrack(env, es, n, s, h, info);
    }
  }

  lemma InfoTrack(env: Env, es: seq<Event>, n: nat, s: State, h: History, info: SegmentInfo)
    requires n < |es| < TWO64 - 1 && es[n].IsSegmentInfo()
    requires FramesEvidence(env, es, es[n].track, h.Open(es[n].track), n, info)
    ensures info.track == es[n].track
  {
  }

  /** An attempt leaves the stored manifests alone or binds the active one. */
  lemma AttemptManifests(env: Env, s: State, t: Track, csid: u32, timestamp: u32, cose: seq<byte>)
    ensures var s' := Authenticate(env, s, t, csid, timestamp, cose).0;
            s'.manifests == s.manifests ||
            (exists info, d ::
               && CheckActive(s, info) == Ok(info)
               && Bind(env, s.manifests[info.manifestId], InitializationData(s.configs)) == Ok(d)
               && s'.manifests == s.manifests[info.manifestId := d])
  {
    hide FindKey, Bind, InitializationData, CheckCandidate, CheckActive;
    var checked := CheckCandidate(env, s, t, csid, timestamp, cose);
    if checked.Ok? {
      CandidateChecked(env, s, t, csid, timestamp, cose);
    }
  }

  /** The time at which the active manifest is bound once event `n` has been tried. */
  function BoundTime(env: Env, s: State, h: History, e: Event, now: nat): nat
    requires e.IsSegmentInfo()
  {
    if Binds(s, Authenticate(env, s, e.track, e.csid, e.timestamp, e.value).0) then now else h.boundAt
  }

  lemma AttemptDelivery(env: Env, es: seq<Event>, n: nat, s: State, h: History, s': State, h': History)
    requires n < |es| < TWO64 - 1 && es[n].IsSegmentInfo() && ClockInv(env, es, n, s) && DeliveryInv(env, es, n, s, h)
    requires s' == Authenticate(env, s, es[n].track, es[n].csid, es[n].timestamp, es[n].value).0
    requires h'.boundAt == if Binds(s, s') then n else h.boundAt
    ensures DeliveryInv(env, es, n + 1, s', h')
  {
    var e := es[n];
    AttemptEffect(env, s, e.track, e.csid, e.timestamp, e.value);
    AttemptManifests(env, s, e.track, e.csid, e.timestamp, e.value);
    hide Authenticate, BoundEvidence, InitializationData, ClockInv, Bind;
    if s'.manifests != s.manifests {
      var info, d :| CheckActive(s, info) == Ok(info)
        && Bind(env, s.manifests[info.manifestId], InitializationData(s.configs)) == Ok(d)
        && s'.manifests == s.manifests[info.manifestId := d];
      var boundAt := if s.manifests[info.manifestId].bound.None? then n else h.boundAt;
      CandidateManifest(env, es, n, s, h, info, d, boundAt);
    }
  }

  /** DeliveryInv reads only the active manifest's identity, the stored deliveries and the binding time. */
  lemma SameDelivery(env: Env, es: seq<Event>, n: nat, a: State, h: History, b: State, h': History)
    requires n < |es| < TWO64 - 1 && DeliveryInv(env, es, n, a, h) && !es[n].IsManifest()
    requires a.manifests == b.manifests && h.boundAt == h'.boundAt
    requires a.active.Some? <==> b.active.Some?
    requires a.active.Some? ==> a.active.value.manifestId == b.active.value.manifestId
    ensures DeliveryInv(env, es, n + 1, b, h')
  {
    hide BoundEvidence;
  }

  lemma {:induction false} HCloseAllKeepsBound(s: State, h: History, ts: seq<Track>)
    ensures HCloseAllAtReconnect(s, h, ts).boundAt == h.boundAt
  {
    if ts != [] {
      HCloseAllKeepsBound(s, h, ts[..|ts| - 1]);
    }
  }

  lemma DeliveryStep(env: Env, es: seq<Event>, n: nat, s: State, h: History)
    requires n < |es| < TWO64 - 1 && ClockInv(env, es, n, s) && DeliveryInv(env, es, n, s, h) && Step(env, s, es[n]).Ok?
    ensures DeliveryInv(env, es, n + 1, Step(env, s, es[n]).value, HStep(env, s, h, es[n], n))
  {
    hide OnFrame, OnSegmentInfo, Reconnected, DeliveryInv, HFrame, HSegmentInfo, HCloseAllAtReconnect;
    var e, s', h' := es[n], Step(env, s, es[n]).value, HStep(env, s, h, es[n], n);
    if e.IsManifest() {
      ManifestDelivery(env, es, n, s, h, s');
    } else if e.IsSegmentInfo() {
      SegmentInfoDelivery(env, es, n, s, h);
    } else {
      if e.Frame? {
        OnFrameKeepsShared(s, e.track, e.csid, e.timestamp, e.offset, e.data);
        FrameKeepsBound(s, h, e, n);
      } else if e.Reconnect? {
        ReconnectClock(s);
        HCloseAllKeepsBound(s, h, InOrder(s.tracks.Keys));
      }
      SameDelivery(env, es, n, s, h, s', h');
    }
  }

  lemma FrameKeepsBound(s: State, h: History, e: Event, now: nat)
    requires e.Frame?
    ensures HFrame(s, h, e.track, e.offset, now).boundAt == h.boundAt
  {
  }

  lemma ManifestDelivery(env: Env, es: seq<Event>, n: nat, s: State, h: History, s': State)
    requires n < |es| < TWO64 - 1 && es[n].IsManifest() && OnManifest(env, s, es[n].track, es[n].csid, es[n].value) == Ok(s')
    ensures DeliveryInv(env, es, n + 1, s', h)
  {
    var parsed := env.parseManifest(es[n].value).value;
    assert parsed == (parsed.0, parsed.1);
  }

  lemma SegmentInfoDelivery(env: Env, es: seq<Event>, n: nat, s: State, h: History)
    requires n < |es| < TWO64 - 1 && es[n].IsSegmentInfo() && ClockInv(env, es, n, s) && DeliveryInv(env, es, n, s, h)
    requires Step(env, s, es[n]).Ok?
    ensures DeliveryInv(env, es, n + 1, Step(env, s, es[n]).value, HSegmentInfo(env, s, h, es[n], n))
  {
    hide Authenticate, BoundEvidence, ClockInv;
    var e, t := es[n], es[n].track;
    var s', h' := Step(env, s, e).value, HSegmentInfo(env, s, h, e, n);
    if s.Get(t).frames == [] && s.Get(t).pending.None? {
      SameDelivery(env, es, n, s, h, s', h');
    } else {
      var s1 := WithPending(s, t, PendingOf(s, t));
      var s2 := Authenticate(env, s1, t, e.csid, e.timestamp, e.value).0;
      assert ClockInv(env, es, n, s1) by { SameClock(env, es, n, s, s1); }
      AttemptDelivery(env, es, n, s1, h, s2, h');
    }
  }

  lemma SameClock(env: Env, es: seq<Event>, n: nat, a: State, b: State)
    requires n <= |es| < TWO64 - 1 && ClockInv(env, es, n, a)
    requires a.configs == b.configs && a.nextRevision == b.nextRevision && a.active == b.active
    ensures ClockInv(env, es, n, b)
  {
  }

  // ---- The body across a SegmentInfo ------------------------------------------------------

  /** Another track only sees that keys gain owners. */
  lemma OtherTrack(env: Env, es: seq<Event>, n: nat, a: State, h: History, b: State, h': History, u: Track)
    requires n < |es| < TWO64 - 1 && !es[n].Reconnect? && TrackInv(env, es, n, a, h, u)
    requires b.Get(u) == a.Get(u) && h'.Open(u) == h.Open(u) && h'.AcceptedOn(u) == h.AcceptedOn(u)
    requires forall k :: k in a.keyTracks ==> Owned(b.keyTracks, k, a.keyTracks[k])
    ensures TrackInv(env, es, n + 1, b, h', u)
  {
    hide Evidence, FramesMatch;
    FramesMatchLater(es, n, u, a.Get(u).frames, h.Open(u));
  }

  /** A SegmentInfo that closes something: the attempt and its record. */
  lemma SegmentInfoUnfold(env: Env, s: State, h: History, e: Event, now: nat)
    requires e.IsSegmentInfo() && Step(env, s, e).Ok? && (s.Get(e.track).frames != [] || s.Get(e.track).pending.Some?)
    ensures var t, p := e.track, PendingOf(s, e.track);
            var s1 := WithPending(s, t, p);
            var (s2, result) := Authenticate(env, s1, t, e.csid, e.timestamp, e.value);
            var h1 := h.(boundAt := BoundTime(env, s1, h, e, now));
            && Step(env, s, e).value == WithPending(s2, t, Record(p, result))
            && HSegmentInfo(env, s, h, e, now) ==
               if result.Ok? && p.accepted.None? then h1.(accepted := h1.accepted[t := Acceptance(now, h1.boundAt)]) else h1
  {
    hide Authenticate, Binds;
  }

  lemma SegmentInfoNothing(env: Env, s: State, h: History, e: Event, now: nat)
    requires e.IsSegmentInfo() && Step(env, s, e).Ok? && s.Get(e.track).frames == [] && s.Get(e.track).pending.None?
    ensures Step(env, s, e).value == s.Fail(ClosesNothing(e.track)) && HSegmentInfo(env, s, h, e, now) == h
  {
    hide Authenticate;
  }

  /** The track itself: an earlier acceptance stands, a new one is backed. */
  lemma OwnTrack(env: Env, es: seq<Event>, n: nat, s: State, h: History)
    requires n < |es| < TWO64 - 1 && es[n].IsSegmentInfo() && Inv(env, es, n, s, h) && Step(env, s, es[n]).Ok?
    requires s.Get(es[n].track).frames != [] || s.Get(es[n].track).pending.Some?
    ensures TrackInv(env, es, n + 1, Step(env, s, es[n]).value, HSegmentInfo(env, s, h, es[n], n), es[n].track)
  {
    var e, t := es[n], es[n].track;
    var p := PendingOf(s, t);
    var s1 := WithPending(s, t, p);
    assert TrackInv(env, es, n, s, h, t);
    SameClock(env, es, n, s, s1);
    SameDeliveryNow(env, es, n, s, h, s1);
    hide Step, HSegmentInfo, Authenticate, FramesMatch, Evidence, ReportsInv, SequenceInv, ClockInv, DeliveryInv, BoundTime;
    AttemptEffect(env, s1, t, e.csid, e.timestamp, e.value);
    SegmentInfoUnfold(env, s, h, e, n);
    FramesMatchLater(es, n, t, s.Get(t).frames, h.Open(t));
    if p.accepted.None? && Authenticate(env, s1, t, e.csid, e.timestamp, e.value).1.Ok? {
      FreshEvidence(env, es, n, s1, h);
    }
  }

  lemma SameDeliveryNow(env: Env, es: seq<Event>, n: nat, a: State, h: History, b: State)
    requires n <= |es| < TWO64 - 1 && DeliveryInv(env, es, n, a, h)
    requires a.manifests == b.manifests && a.active == b.active
    ensures DeliveryInv(env, es, n, b, h)
  {
  }

  /** A new acceptance is backed with the binding time the history records. */
  lemma FreshEvidence(env: Env, es: seq<Event>, n: nat, s: State, h: History)
    requires n < |es| < TWO64 - 1 && es[n].IsSegmentInfo() && Ready(env, es, n, s, h, es[n].track)
    requires Authenticate(env, s, es[n].track, es[n].csid, es[n].timestamp, es[n].value).1.Ok?
    ensures var t, a := es[n].track, Authenticate(env, s, es[n].track, es[n].csid, es[n].timestamp, es[n].value).1.value;
            && Evidence(env, es, t, h.Open(t), Acceptance(n, BoundTime(env, s, h, es[n], n)), a)
            && Follows(s.Get(t).lastSequence, a.sequence)
  {
    var e, t := es[n], es[n].track;
    SuccessBinds(env, s, t, e.csid, e.timestamp, e.value);
    AttemptEvidence(env, es, n, s, h, BoundTime(env, s, h, e, n));
  }

  /** After a successful attempt the active manifest is bound. */
  lemma SuccessBinds(env: Env, s: State, t: Track, csid: u32, timestamp: u32, cose: seq<byte>)
    requires Authenticate(env, s, t, csid, timestamp, cose).1.Ok?
    ensures s.active.Some? && s.active.value.manifestId in s.manifests
    ensures Binds(s, Authenticate(env, s, t, csid, timestamp, cose).0) <==> s.manifests[s.active.value.manifestId].bound.None?
  {
    hide CheckCandidate, FindKey, InitializationData;
    CandidateChecked(env, s, t, csid, timestamp, cose);
  }

  lemma SegmentInfoFrame(env: Env, s: State, h: History, e: Event, now: nat, u: Track)
    requires e.IsSegmentInfo() && Step(env, s, e).Ok?
    ensures var s', h' := Step(env, s, e).value, HSegmentInfo(env, s, h, e, now);
            && s'.reports == s.reports && h'.closures == h.closures && h'.open == h.open
            && s'.Get(u).lastSequence == s.Get(u).lastSequence
            && (forall k :: k in s.keyTracks ==> Owned(s'.keyTracks, k, s.keyTracks[k]))
            && (u != e.track ==> s'.Get(u) == s.Get(u) && h'.AcceptedOn(u) == h.AcceptedOn(u))
  {
    hide Step, HSegmentInfo, Authenticate, BoundTime;
    var t := e.track;
    if s.Get(t).frames != [] || s.Get(t).pending.Some? {
      AttemptEffect(env, WithPending(s, t, PendingOf(s, t)), t, e.csid, e.timestamp, e.value);
      SegmentInfoUnfold(env, s, h, e, now);
    } else {
      SegmentInfoNothing(env, s, h, e, now);
    }
  }

  lemma SegmentInfoTrack(env: Env, es: seq<Event>, n: nat, s: State, h: History, u: Track)
    requires n < |es| < TWO64 - 1 && es[n].IsSegmentInfo() && Inv(env, es, n, s, h) && Step(env, s, es[n]).Ok?
    ensures TrackInv(env, es, n + 1, Step(env, s, es[n]).value, HSegmentInfo(env, s, h, es[n], n), u)
    ensures Step(env, s, es[n]).value.Get(u).lastSequence == s.Get(u).lastSequence
  {
    var e, t := es[n], es[n].track;
    assert TrackInv(env, es, n, s, h, u);
    hide Step, HSegmentInfo, TrackInv, BodyInv, ClockInv, DeliveryInv;
    SegmentInfoFrame(env, s, h, e, n, u);
    if u == t && (s.Get(t).frames != [] || s.Get(t).pending.Some?) {
      OwnTrack(env, es, n, s, h);
    } else {
      if u == t { SegmentInfoNothing(env, s, h, e, n); }
      OtherTrack(env, es, n, s, h, Step(env, s, e).value, HSegmentInfo(env, s, h, e, n), u);
    }
  }

  lemma SegmentInfoBody(env: Env, es: seq<Event>, n: nat, s: State, h: History)
    requires n < |es| < TWO64 - 1 && es[n].IsSegmentInfo() && Inv(env, es, n, s, h) && Step(env, s, es[n]).Ok?
    ensures BodyInv(env, es, n + 1, Step(env, s, es[n]).value, HSegmentInfo(env, s, h, es[n], n))
  {
    hide Step, HSegmentInfo, TrackInv, ReportsInv, SequenceInv, ClockInv, DeliveryInv;
    var e, t, later := es[n], es[n].track, n + 1;
    var s', h' := Step(env, s, e).value, HSegmentInfo(env, s, h, e, n);
    SegmentInfoFrame(env, s, h, e, n, t);
    LaterReports(env, es, n, s, h, s', h');
    forall u ensures TrackInv(env, es, later, s', h', u) && s'.Get(u).lastSequence == s.Get(u).lastSequence {
      SegmentInfoTrack(env, es, n, s, h, u);
    }
    SameSequence(s, s');
  }

  // ---- Reconnection ---------------------------------------------------------------------------

  /** A track with nothing open and nothing pending satisfies its invariant at any time. */
  predicate Idle(s: State, h: History, t: Track) {
    s.Get(t).frames == [] && s.Get(t).pending.None? && h.Open(t) == []
  }

  lemma ClearFrames(env: Env, es: seq<Event>, n: nat, a: State, h: History, b: State, h': History, t: Track)
    requires n <= |es| < TWO64 - 1 && BodyInv(env, es, n, a, h) && a.Get(t).pending.None?
    requires b.tracks == a.tracks || b.tracks == a.tracks[t := a.Get(t).(frames := [])]
    requires b.Get(t).frames == [] && b.keyTracks == a.keyTracks && b.reports == a.reports
    requires h' == h.(open := h.open[t := []])
    ensures BodyInv(env, es, n, b, h')
  {
    hide TrackInv, ReportOk, SequenceInv;
    forall u ensures TrackInv(env, es, n, b, h', u) && b.Get(u).lastSequence == a.Get(u).lastSequence {
      assert TrackInv(env, es, n, a, h, u);
      ClearTrack(env, es, n, a, h, b, h', t, u);
    }
    SameSequence(a, b);
  }

  lemma ClearTrack(env: Env, es: seq<Event>, n: nat, a: State, h: History, b: State, h': History, t: Track, u: Track)
    requires n <= |es| < TWO64 - 1 && TrackInv(env, es, n, a, h, u) && a.Get(t).pending.None?
    requires b.tracks == a.tracks || b.tracks == a.tracks[t := a.Get(t).(frames := [])]
    requires b.Get(t).frames == [] && b.keyTracks == a.keyTracks
    requires h' == h.(open := h.open[t := []])
    ensures TrackInv(env, es, n, b, h', u) && b.Get(u).lastSequence == a.Get(u).lastSequence
  {
    hide Evidence;
  }

  lemma CloseBody(env: Env, es: seq<Event>, n: nat, s: State, h: History, t: Track)
    requires n <= |es| < TWO64 - 1 && BodyInv(env, es, n, s, h)
    ensures BodyInv(env, es, n, CloseAtReconnect(s, t), HCloseAtReconnect(s, h, t))
    ensures Idle(CloseAtReconnect(s, t), HCloseAtReconnect(s, h, t), t)
  {
    FinalizeBody(env, es, n, s, h, t);
    FinalizedHasNoPending(s, t);
    hide FinalizePending, HFinalize, BodyInv;
    ClearFrames(env, es, n, FinalizePending(s, t), HFinalize(s, h, t), CloseAtReconnect(s, t), HCloseAtReconnect(s, h, t), t);
  }

  lemma CloseKeepsIdle(s: State, h: History, t: Track, u: Track)
    requires Idle(s, h, u)
    ensures Idle(CloseAtReconnect(s, t), HCloseAtReconnect(s, h, t), u)
  {
  }

  lemma {:induction false} CloseAllBody(env: Env, es: seq<Event>, n: nat, s: State, h: History, ts: seq<Track>)
    requires n <= |es| < TWO64 - 1 && BodyInv(env, es, n, s, h)
    ensures BodyInv(env, es, n, CloseAllAtReconnect(s, ts), HCloseAllAtReconnect(s, h, ts))
  {
    hide BodyInv, CloseAtReconnect, HCloseAtReconnect;
    if ts != [] {
      var front := ts[..|ts| - 1];
      CloseAllBody(env, es, n, s, h, front);
      CloseBody(env, es, n, CloseAllAtReconnect(s, front), HCloseAllAtReconnect(s, h, front), ts[|ts| - 1]);
    }
  }

  lemma {:induction false} CloseAllIdle(env: Env, es: seq<Event>, n: nat, s: State, h: History, ts: seq<Track>, u: Track)
    requires n <= |es| < TWO64 - 1 && BodyInv(env, es, n, s, h)
    requires u in ts || Idle(s, h, u)
    ensures Idle(CloseAllAtReconnect(s, ts), HCloseAllAtReconnect(s, h, ts), u)
  {
    hide BodyInv, CloseAtReconnect, HCloseAtReconnect, Idle;
    if ts != [] {
      var front, last := ts[..|ts| - 1], ts[|ts| - 1];
      var s1, h1 := CloseAllAtReconnect(s, front), HCloseAllAtReconnect(s, h, front);
      CloseAllBody(env, es, n, s, h, front);
      CloseBody(env, es, n, s1, h1, last);
      if u != last {
        CloseAllIdle(env, es, n, s, h, front, u);
        CloseKeepsIdle(s1, h1, last, u);
      }
    }
  }

  lemma {:induction false} InOrderComplete(tracks: set<Track>, rank: nat, t: Track)
    requires rank <= TRACKS && t in tracks && t.Rank() < rank
    ensures t in TracksBelow(tracks, rank)
  {
    RankInjective(t);
    if t.Rank() < rank - 1 {
      InOrderComplete(tracks, rank - 1, t);
    }
  }

  lemma ReconnectBody(env: Env, es: seq<Event>, n: nat, s: State, h: History)
    requires n < |es| < TWO64 - 1 && BodyInv(env, es, n, s, h)
    ensures BodyInv(env, es, n + 1, Reconnected(s), HCloseAllAtReconnect(s, h, InOrder(s.tracks.Keys)))
  {
    var ts, later := InOrder(s.tracks.Keys), n + 1;
    var c, h' := CloseAllAtReconnect(s, ts), HCloseAllAtReconnect(s, h, ts);
    var s' := Reconnected(s);
    assert c.tracks == s'.tracks && c.keyTracks == s'.keyTracks && c.reports == s'.reports;
    CloseAllBody(env, es, n, s, h, ts);
    assert SequenceInv(c);
    LaterReports(env, es, n, c, h', s', h');
    forall u ensures Idle(c, h', u) {
      if u in s.tracks {
        InOrderComplete(s.tracks.Keys, TRACKS, u);
      } else {
        assert TrackInv(env, es, n, s, h, u);
      }
      CloseAllIdle(env, es, n, s, h, ts, u);
    }
    hide CloseAllAtReconnect, HCloseAllAtReconnect, Reconnected, InOrder, ReportsInv, SequenceInv;
    forall u ensures TrackInv(env, es, later, s', h', u) && s'.Get(u).lastSequence == c.Get(u).lastSequence {
      assert Idle(c, h', u);
    }
    SameSequence(c, s');
  }

  // ---- Every reachable state ---------------------------------------------------------------------

  lemma InvStep(env: Env, es: seq<Event>, n: nat, s: State, h: History)
    requires n < |es| < TWO64 - 1 && Inv(env, es, n, s, h) && Step(env, s, es[n]).Ok?
    ensures Inv(env, es, n + 1, Step(env, s, es[n]).value, HStep(env, s, h, es[n], n))
  {
    var e := es[n];
    ClockStep(env, es, n, s);
    DeliveryStep(env, es, n, s, h);
    if e.Frame? {
      FrameBody(env, es, n, s, h);
    } else if e.IsSegmentInfo() {
      SegmentInfoBody(env, es, n, s, h);
    } else if e.Reconnect? {
      ReconnectBody(env, es, n, s, h);
    } else {
      LaterBody(env, es, n, s, h);
      QuietBody(env, s, h, e, n);
      SameBodyInv(env, es, n + 1, s, Step(env, s, e).value, h);
    }
    hide BodyInv, ClockInv, DeliveryInv, OnSegmentInfo, OnFrame, HSegmentInfo, HFrame, Reconnected, HCloseAllAtReconnect;
  }

  lemma QuietBody(env: Env, s: State, h: History, e: Event, now: nat)
    requires !e.Frame? && !e.IsSegmentInfo() && !e.Reconnect? && Step(env, s, e).Ok?
    ensures SameBody(s, Step(env, s, e).value) && HStep(env, s, h, e, now) == h
  {
  }

  lemma StartInv(env: Env, es: seq<Event>, s0: State)
    requires |es| < TWO64 - 1 && s0.(failures := []) == START
    ensures Inv(env, es, 0, s0, NOTHING)
  {
  }

  /** The invariant holds after every prefix of every event list. */
  lemma {:induction false} InvHolds(env: Env, s0: State, es: seq<Event>, n: nat)
    requires n <= |es| < TWO64 - 1 && s0.(failures := []) == START && HRun(env, s0, es, n).Some?
    ensures Inv(env, es, n, HRun(env, s0, es, n).value.0, HRun(env, s0, es, n).value.1)
  {
    hide Inv, Step, HStep;
    if n == 0 {
      StartInv(env, es, s0);
    } else {
      InvHolds(env, s0, es, n - 1);
      var before := HRun(env, s0, es, n - 1).value;
      InvStep(env, es, n - 1, before.0, before.1);
    }
  }
}
