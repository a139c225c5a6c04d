/** Candidate errors that no run can produce. */
module ErtmpReachable {
  import opened Octets
  import opened ErtmpTypes
  import opened ErtmpSegmentInfo
  import opened ErtmpVerifier
  import opened ErtmpTimeline
  import opened ErtmpHistory
  import opened ErtmpEvidence
  import opened ErtmpInvariant

  /** Errors the source guards against although the state rules them out. */
  predicate Dead(e: CandidateError) {
    e.NoTrackState? || e.NotDelivered? || e.DeliveredBeforeConfig? || e.BoundElsewhere? || e.NoCandidate?
  }

  predicate NoneDead(failures: seq<CandidateError>) {
    forall i :: 0 <= i < |failures| ==> !Dead(failures[i])
  }

  /** The active manifest is stored under the revision it was delivered at. */
  predicate RevisionAgrees(s: State) {
    s.active.Some? ==>
      s.active.value.manifestId in s.manifests && s.manifests[s.active.value.manifestId].revision == s.active.value.revision
  }

  /** A pending segment has been tried: it is accepted, or there is a reason why not. */
  predicate Tried(p: Option<Pending>) {
    p.Some? ==> NoneDead(p.value.failures) && (p.value.accepted.Some? || p.value.failures != [])
  }

  ghost predicate Live(s: State) {
    && RevisionAgrees(s)
    && (forall t :: Tried(s.Get(t).pending))
    && forall i :: 0 <= i < |s.reports| ==> Explained(s.reports[i])
  }

  /** A report gives a reason exactly if the segment is invalid, and none of the dead errors. */
  predicate Explained(r: SegmentReport) {
    NoneDead(r.failures) && (r.failures == [] <==> r.accepted.Some?)
  }

  // ---- An attempt ---------------------------------------------------------------------------

  lemma CheckNotDead(env: Env, s: State, t: Track, csid: u32, timestamp: u32, cose: seq<byte>)
    requires RevisionAgrees(s) && t in s.tracks
    ensures CheckCandidate(env, s, t, csid, timestamp, cose).Err? ==> !Dead(CheckCandidate(env, s, t, csid, timestamp, cose).error)
  {
    hide UntrustedSegmentInfo, Preimage;
  }

  lemma AttemptNotDead(env: Env, es: seq<Event>, n: nat, s: State, h: History, t: Track, csid: u32, timestamp: u32, cose: seq<byte>)
    requires n < |es| < TWO64 - 1 && ClockInv(env, es, n, s) && DeliveryInv(env, es, n, s, h) && RevisionAgrees(s) && t in s.tracks
    ensures var (s', result) := Authenticate(env, s, t, csid, timestamp, cose);
            (result.Err? ==> !Dead(result.error)) && RevisionAgrees(s')
  {
    CheckNotDead(env, s, t, csid, timestamp, cose);
    var checked := CheckCandidate(env, s, t, csid, timestamp, cose);
    hide CheckCandidate, ClockInv, DeliveryInv, FindKey, InitializationData;
    if checked.Ok? {
      CandidateChecked(env, s, t, csid, timestamp, cose);
      NeverElsewhere(env, es, n, s, h, checked.value);
    }
  }

  // ---- Closing ----------------------------------------------------------------------------------

  lemma FinalizeLive(s: State, t: Track)
    requires Live(s)
    ensures Live(FinalizePending(s, t))
  {
    var s' := FinalizePending(s, t);
    assert Tried(s.Get(t).pending);
    forall u ensures Tried(s'.Get(u).pending) {
      assert Tried(s.Get(u).pending);
    }
  }

  lemma SameLive(a: State, b: State)
    requires Live(a) && a.reports == b.reports && a.active == b.active && a.manifests == b.manifests
    requires forall t :: b.Get(t).pending == a.Get(t).pending
    ensures Live(b)
  {
    hide NoneDead;
    forall t ensures Tried(b.Get(t).pending) {
      assert Tried(a.Get(t).pending);
    }
  }

  lemma CloseLive(s: State, t: Track)
    requires Live(s)
    ensures Live(CloseAtReconnect(s, t)) && Live(CloseAtEnd(s, t))
  {
    FinalizeLive(s, t);
    var c := FinalizePending(s, t);
    hide Live, FinalizePending;
    SameLive(c, CloseAtReconnect(s, t));
    SameLive(c, CloseAtEnd(s, t));
  }

  lemma {:induction false} CloseAllLive(s: State, ts: seq<Track>)
    requires Live(s)
    ensures Live(CloseAllAtReconnect(s, ts)) && Live(CloseAllAtEnd(s, ts))
  {
    hide Live, CloseAtReconnect, CloseAtEnd;
    if ts != [] {
      CloseAllLive(s, ts[..|ts| - 1]);
      CloseLive(CloseAllAtReconnect(s, ts[..|ts| - 1]), ts[|ts| - 1]);
      CloseLive(CloseAllAtEnd(s, ts[..|ts| - 1]), ts[|ts| - 1]);
    }
  }

  // ---- Steps ---------------------------------------------------------------------------------------

  lemma FrameLive(s: State, e: Event)
    requires Live(s) && e.Frame? && OnFrame(s, e.track, e.csid, e.timestamp, e.offset, e.data).Ok?
    ensures Live(OnFrame(s, e.track, e.csid, e.timestamp, e.offset, e.data).value)
  {
    FinalizeLive(s, e.track);
    var c := FinalizePending(s, e.track);
    hide Live, FinalizePending, FrameFailures;
    SameLive(c, OnFrame(s, e.track, e.csid, e.timestamp, e.offset, e.data).value);
  }

  lemma ManifestLive(env: Env, s: State, e: Event)
    requires Live(s) && e.IsManifest() && OnManifest(env, s, e.track, e.csid, e.value).Ok?
    ensures Live(OnManifest(env, s, e.track, e.csid, e.value).value)
  {
    var s' := OnManifest(env, s, e.track, e.csid, e.value).value;
    forall t ensures Tried(s'.Get(t).pending) {
      assert Tried(s.Get(t).pending);
    }
  }

  lemma ReconnectLive(s: State)
    requires Live(s)
    ensures Live(Reconnected(s))
  {
    CloseAllLive(s, InOrder(s.tracks.Keys));
    var c, r := CloseAllAtReconnect(s, InOrder(s.tracks.Keys)), Reconnected(s);
    hide CloseAllAtReconnect, InOrder;
    forall t ensures Tried(r.Get(t).pending) {
      assert Tried(c.Get(t).pending);
    }
  }

  lemma RecordTried(p: Pending, result: Result<Accepted, CandidateError>)
    requires NoneDead(p.failures) && (result.Err? ==> !Dead(result.error))
    ensures Tried(Some(Record(p, result)))
  {
  }

  lemma SegmentInfoLive(env: Env, es: seq<Event>, n: nat, s: State, h: History)
    requires n < |es| < TWO64 - 1 && es[n].IsSegmentInfo() && ClockInv(env, es, n, s) && DeliveryInv(env, es, n, s, h)
    requires Live(s) && Step(env, s, es[n]).Ok?
    ensures Live(Step(env, s, es[n]).value)
  {
    hide Authenticate, ClockInv, DeliveryInv;
    var e, t, p := es[n], es[n].track, PendingOf(s, es[n].track);
    var s' := Step(env, s, e).value;
    assert Tried(s.Get(t).pending);
    if s.Get(t).frames == [] && s.Get(t).pending.None? {
      SameLive(s, s');
    } else {
      var s1 := WithPending(s, t, p);
      SameClock(env, es, n, s, s1);
      SameDeliveryNow(env, es, n, s, h, s1);
      AttemptNotDead(env, es, n, s1, h, t, e.csid, e.timestamp, e.value);
      AttemptEffect(env, s1, t, e.csid, e.timestamp, e.value);
      var (s2, result) := Authenticate(env, s1, t, e.csid, e.timestamp, e.value);
      RecordTried(p, result);
      hide NoneDead, Record;
      forall u ensures Tried(s'.Get(u).pending) {
        assert Tried(s.Get(u).pending);
      }
    }
  }

  lemma StepLive(env: Env, es: seq<Event>, n: nat, s: State, h: History)
    requires n < |es| < TWO64 - 1 && Inv(env, es, n, s, h) && Live(s) && Step(env, s, es[n]).Ok?
    ensures Live(Step(env, s, es[n]).value)
  {
    var e := es[n];
    hide Live, OnSegmentInfo, OnFrame, OnManifest, Reconnected, ClockInv, DeliveryInv, BodyInv;
    if e.Frame? {
      FrameLive(s, e);
    } else if e.IsManifest() {
      ManifestLive(env, s, e);
    } else if e.IsSegmentInfo() {
      SegmentInfoLive(env, es, n, s, h);
    } else if e.Reconnect? {
      ReconnectLive(s);
    } else {
      SameLive(s, Step(env, s, e).value);
    }
  }

  lemma {:induction false} RunLive(env: Env, s0: State, es: seq<Event>, n: nat)
    requires n <= |es| < TWO64 - 1 && s0.(failures := []) == START && HRun(env, s0, es, n).Some?
    ensures Live(HRun(env, s0, es, n).value.0)
  {
    hide Inv, Step, HStep;
    if n != 0 {
      hide Live;
      RunLive(env, s0, es, n - 1);
      InvHolds(env, s0, es, n - 1);
      var before := HRun(env, s0, es, n - 1).value;
      StepLive(env, es, n - 1, before.0, before.1);
    }
  }

  /** In every run: an active manifest is always stored, under its own revision, and bound to nothing but the data in force,
      and every closed segment was tried. So five of the candidate errors never reach a report, and a report gives reasons
      exactly if its segment is invalid. */
  lemma DeadErrorsNeverReported(env: Env, input: Input)
    requires Verify(env, input).Ok?
    ensures var v := Verify(env, input).value;
            forall i :: 0 <= i < |v.segments| ==> Explained(v.segments[i])
  {
    var es, n := input.events, |input.events|;
    HRunIsRun(env, Begun(input), es, n);
    assert es[..n] == es;
    RunLive(env, Begun(input), es, n);
    var s := Run(env, Begun(input), es).value;
    hide HRun, Run, Explained, CloseAllAtEnd, InOrder;
    CloseAllLive(s, InOrder(s.tracks.Keys));
  }
}
