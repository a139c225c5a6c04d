/** The segment reports of a run, read off the event list and the outcome of each attempt. */
module ErtmpReports {
  import opened Octets
  import opened ErtmpTypes
  import opened ErtmpVerifier
  import opened ErtmpTimeline
  import opened ErtmpHistory
  import opened ErtmpInvariant
  import opened ErtmpFailures

  type Outcome = Result<Accepted, CandidateError>

  // ---- What is expected ------------------------------------------------------------------------------

  /** How the SegmentInfo at `k` fared. */
  function AttemptAt(env: Env, s0: State, es: seq<Event>, k: nat): Outcome
    requires k < |es| && es[k].IsSegmentInfo()
  {
    var r := Run(env, s0, es[..k]);
    if r.Err? then Err(NoCandidate)
    else
      var s, t := r.value, es[k].track;
      Authenticate(env, WithPending(s, t, PendingOf(s, t)), t, es[k].csid, es[k].timestamp, es[k].value).1
  }

  /** The attempts to close the track's open segment. A frame of the track or a reconnection ends them. */
  function ResultsAt(env: Env, s0: State, es: seq<Event>, n: nat, t: Track): seq<Outcome>
    requires n <= |es| < TWO64 - 1
  {
    if n == 0 || es[n - 1].Reconnect? || es[n - 1].IsFrameOn(t) then []
    else
      ResultsAt(env, s0, es, n - 1, t) +
      if es[n - 1].IsSegmentInfo() && es[n - 1].track == t && !StageAt(es, n - 1, t).Empty? then [AttemptAt(env, s0, es, n - 1)] else []
  }

  /** The first success. */
  function FirstAccepted(rs: seq<Outcome>): Option<Accepted> {
    if rs == [] then None
    else
      var before, last := FirstAccepted(rs[..|rs| - 1]), rs[|rs| - 1];
      if before.Some? then before else if last.Ok? then Some(last.value) else None
  }

  /** All failures in order. */
  function Reasons(rs: seq<Outcome>): seq<CandidateError> {
    if rs == [] then [] else Reasons(rs[..|rs| - 1]) + if rs[|rs| - 1].Err? then [rs[|rs| - 1].error] else []
  }

  /** What is reported of attempts: nothing without any, else the first success, or the reasons of all failures. */
  function ReportsOf(t: Track, rs: seq<Outcome>): seq<SegmentReport> {
    if rs == [] then [] else [SegmentReport(t, FirstAccepted(rs), if FirstAccepted(rs).Some? then [] else Reasons(rs))]
  }

  /** The reports of all tracks below `rank` that were tried, in track order. */
  function ClosedBelow(env: Env, s0: State, es: seq<Event>, n: nat, rank: nat): seq<SegmentReport>
    requires n <= |es| < TWO64 - 1 && rank <= TRACKS
  {
    if rank == 0 then []
    else ClosedBelow(env, s0, es, n, rank - 1) + ReportsOf(TrackAt(rank - 1), ResultsAt(env, s0, es, n, TrackAt(rank - 1)))
  }

  /** The reports made before the end: at each frame for its track, at each reconnection for all tracks. */
  function ReportsAt(env: Env, s0: State, es: seq<Event>, n: nat): seq<SegmentReport>
    requires n <= |es| < TWO64 - 1
  {
    if n == 0 then []
    else
      ReportsAt(env, s0, es, n - 1) +
      if es[n - 1].Frame? then ReportsOf(es[n - 1].track, ResultsAt(env, s0, es, n - 1, es[n - 1].track))
      else if es[n - 1].Reconnect? then ClosedBelow(env, s0, es, n - 1, TRACKS)
      else []
  }

  // ---- What these functions mean -------------------------------------------------------------------------

  lemma {:induction false} FirstAcceptedMeans(rs: seq<Outcome>)
    ensures FirstAccepted(rs).None? <==> forall i :: 0 <= i < |rs| ==> rs[i].Err?
    ensures FirstAccepted(rs).Some? ==>
              exists i :: 0 <= i < |rs| && rs[i] == Ok(FirstAccepted(rs).value) && forall j :: 0 <= j < i ==> rs[j].Err?
  {
    if rs != [] {
      var front := rs[..|rs| - 1];
      FirstAcceptedMeans(front);
      if FirstAccepted(front).Some? {
        var i :| 0 <= i < |front| && front[i] == Ok(FirstAccepted(front).value) && forall j :: 0 <= j < i ==> front[j].Err?;
        assert rs[i] == front[i];
      } else {
        assert forall i :: 0 <= i < |front| ==> rs[i] == front[i];
      }
    }
  }

  lemma {:induction false} ReasonsMean(rs: seq<Outcome>)
    requires forall i :: 0 <= i < |rs| ==> rs[i].Err?
    ensures |Reasons(rs)| == |rs| && forall i :: 0 <= i < |rs| ==> Reasons(rs)[i] == rs[i].error
  {
    if rs != [] {
      ReasonsMean(rs[..|rs| - 1]);
    }
  }

  // ---- The state agrees -------------------------------------------------------------------------------------

  /** The pending segment holds just what the attempts gave. */
  predicate PendingIs(p: Option<Pending>, rs: seq<Outcome>) {
    if rs == [] then p.None? else p == Some(Pending(|rs|, FirstAccepted(rs), Reasons(rs)))
  }

  ghost predicate PendingsAgree(env: Env, s0: State, es: seq<Event>, n: nat, s: State)
    requires n <= |es| < TWO64 - 1
  {
    forall t :: PendingIs(s.Get(t).pending, ResultsAt(env, s0, es, n, t))
  }

  ghost predicate ReportInv(env: Env, s0: State, es: seq<Event>, n: nat, s: State)
    requires n <= |es| < TWO64 - 1
  {
    s.reports == ReportsAt(env, s0, es, n) && PendingsAgree(env, s0, es, n, s)
  }

  lemma ReportIs(t: Track, p: Option<Pending>, rs: seq<Outcome>)
    requires PendingIs(p, rs)
    ensures (if p.Some? then [ReportOf(t, p.value)] else []) == ReportsOf(t, rs)
  {
    if rs != [] && FirstAccepted(rs).None? {
      FirstAcceptedMeans(rs);
      ReasonsMean(rs);
    }
  }

  lemma OneMoreResult(rs: seq<Outcome>, r: Outcome)
    ensures FirstAccepted(rs + [r]) == if FirstAccepted(rs).Some? then FirstAccepted(rs) else if r.Ok? then Some(r.value) else None
    ensures Reasons(rs + [r]) == Reasons(rs) + if r.Err? then [r.error] else []
  {
    assert (rs + [r])[..|rs|] == rs;
  }

  lemma RecordIs(p: Pending, rs: seq<Outcome>, r: Outcome)
    requires if rs == [] then p == Pending(0, None, []) else p == Pending(|rs|, FirstAccepted(rs), Reasons(rs))
    ensures PendingIs(Some(Record(p, r)), rs + [r])
  {
    hide FirstAccepted, Reasons;
    OneMoreResult(rs, r);
    if rs == [] {
      NoResults();
    }
    assert Reasons(rs) + [] == Reasons(rs) && rs + [r] != [];
  }

  lemma NoResults()
    ensures FirstAccepted([]) == None && Reasons([]) == []
  {
  }

  /** What one more event does to the attempts of a track. */
  lemma ResultsStep(env: Env, s0: State, es: seq<Event>, n: nat, u: Track)
    requires n < |es| < TWO64 - 1
    ensures var now, e := ResultsAt(env, s0, es, n + 1, u), es[n];
            && (e.Reconnect? || e.IsFrameOn(u) ==> now == [])
            && (!e.Reconnect? && !e.IsFrameOn(u) && !(e.IsSegmentInfo() && e.track == u && !StageAt(es, n, u).Empty?) ==>
                  now == ResultsAt(env, s0, es, n, u))
            && (e.IsSegmentInfo() && e.track == u && !StageAt(es, n, u).Empty? ==>
                  now == ResultsAt(env, s0, es, n, u) + [AttemptAt(env, s0, es, n)])
  {
    hide AttemptAt, StageAt;
  }

  /** Closing one track. */
  lemma FinalizeIs(s: State, t: Track, u: Track)
    ensures var r := FinalizePending(s, t);
            && r.reports == s.reports + (if s.Get(t).pending.Some? then [ReportOf(t, s.Get(t).pending.value)] else [])
            && r.Get(u).pending == if u == t then None else s.Get(u).pending
  {
  }

  lemma FrameReports(env: Env, s0: State, es: seq<Event>, n: nat, s: State)
    requires n < |es| < TWO64 - 1 && es[n].Frame? && ReportInv(env, s0, es, n, s) && Step(env, s, es[n]).Ok?
    ensures ReportInv(env, s0, es, n + 1, Step(env, s, es[n]).value)
  {
    var e, s', later := es[n], Step(env, s, es[n]).value, n + 1;
    hide AttemptAt, StageAt, OnFrame, FinalizePending, FirstAccepted, Reasons, ReportsOf, PendingIs, ResultsAt;
    FrameIs(env, s, e);
    FinalizeIs(s, e.track, e.track);
    ReportIs(e.track, s.Get(e.track).pending, ResultsAt(env, s0, es, n, e.track));
    forall u ensures PendingIs(s'.Get(u).pending, ResultsAt(env, s0, es, later, u)) {
      FinalizeIs(s, e.track, u);
      assert PendingIs(s.Get(u).pending, ResultsAt(env, s0, es, n, u));
      ResultsStep(env, s0, es, n, u);
      NothingTried();
    }
  }

  lemma NothingTried()
    ensures PendingIs(None, [])
  {
  }

  /** A frame first closes its track's pending segment, and touches no other pending one. */
  lemma FrameIs(env: Env, s: State, e: Event)
    requires e.Frame? && Step(env, s, e).Ok?
    ensures Step(env, s, e).value.reports == FinalizePending(s, e.track).reports
    ensures forall u :: Step(env, s, e).value.Get(u).pending == FinalizePending(s, e.track).Get(u).pending
  {
    hide FrameFailures;
  }

  /** What a SegmentInfo with something to close does to reports and pending segments. */
  lemma AttemptIs(env: Env, s0: State, es: seq<Event>, n: nat, s: State, u: Track)
    requires n < |es| && es[n].IsSegmentInfo() && Step(env, s, es[n]).Ok? && Run(env, s0, es[..n]) == Ok(s)
    requires s.Get(es[n].track).frames != [] || s.Get(es[n].track).pending.Some?
    ensures var t, s' := es[n].track, Step(env, s, es[n]).value;
            && s'.reports == s.reports
            && s'.Get(u).pending == if u == t then Some(Record(PendingOf(s, t), AttemptAt(env, s0, es, n))) else s.Get(u).pending
  {
    hide Run, Authenticate, Record;
    var e, t := es[n], es[n].track;
    AttemptEffect(env, WithPending(s, t, PendingOf(s, t)), t, e.csid, e.timestamp, e.value);
  }

  lemma SegmentInfoReports(env: Env, s0: State, es: seq<Event>, n: nat, s: State)
    requires n < |es| < TWO64 - 1 && es[n].IsSegmentInfo() && ReportInv(env, s0, es, n, s) && Step(env, s, es[n]).Ok?
    requires Run(env, s0, es[..n]) == Ok(s) && StageOf(s.Get(es[n].track)) == StageAt(es, n, es[n].track)
    ensures ReportInv(env, s0, es, n + 1, Step(env, s, es[n]).value)
  {
    hide Run, Step, StageAt, AttemptAt, FirstAccepted, Reasons, PendingIs, Record, ResultsAt;
    var t, s', later := es[n].track, Step(env, s, es[n]).value, n + 1;
    var rs := ResultsAt(env, s0, es, n, t);
    assert PendingIs(s.Get(t).pending, rs);
    if s.Get(t).frames == [] && s.Get(t).pending.None? {
      ClosesNothingIs(env, s, es[n]);
      SameReports(env, s0, es, n, s, s');
    } else {
      PendingParts(s.Get(t).pending, rs);
      RecordIs(PendingOf(s, t), rs, AttemptAt(env, s0, es, n));
      forall u ensures s'.reports == s.reports && PendingIs(s'.Get(u).pending, ResultsAt(env, s0, es, later, u)) {
        assert PendingIs(s.Get(u).pending, ResultsAt(env, s0, es, n, u));
        AttemptIs(env, s0, es, n, s, u);
        ResultsStep(env, s0, es, n, u);
      }
      AttemptIs(env, s0, es, n, s, t);
      assert ReportsAt(env, s0, es, n) + [] == ReportsAt(env, s0, es, n);
    }
  }

  lemma ClosesNothingIs(env: Env, s: State, e: Event)
    requires e.IsSegmentInfo() && Step(env, s, e).Ok? && s.Get(e.track).frames == [] && s.Get(e.track).pending.None?
    ensures Step(env, s, e).value == s.Fail(ClosesNothing(e.track))
  {
    hide Authenticate;
  }

  lemma PendingParts(p: Option<Pending>, rs: seq<Outcome>)
    requires PendingIs(p, rs)
    ensures rs == [] <==> p.None?
    ensures p.Some? ==> p.value == Pending(|rs|, FirstAccepted(rs), Reasons(rs))
  {
  }

  /** An event that closes and tries nothing. */
  lemma SameReports(env: Env, s0: State, es: seq<Event>, n: nat, s: State, s': State)
    requires n < |es| < TWO64 - 1 && ReportInv(env, s0, es, n, s) && !es[n].Frame? && !es[n].Reconnect?
    requires es[n].IsSegmentInfo() ==> StageAt(es, n, es[n].track).Empty?
    requires s'.reports == s.reports && forall u :: s'.Get(u).pending == s.Get(u).pending
    ensures ReportInv(env, s0, es, n + 1, s')
  {
    hide AttemptAt, StageAt, PendingIs, ResultsAt;
    var later := n + 1;
    forall u ensures PendingIs(s'.Get(u).pending, ResultsAt(env, s0, es, later, u)) {
      assert PendingIs(s.Get(u).pending, ResultsAt(env, s0, es, n, u));
      ResultsStep(env, s0, es, n, u);
    }
    assert ReportsAt(env, s0, es, n) + [] == ReportsAt(env, s0, es, n);
  }

  // ---- Closing all tracks -----------------------------------------------------------------------------------------

  function Closing(s: State, ts: seq<Track>): seq<SegmentReport> {
    if ts == [] then []
    else Closing(s, ts[..|ts| - 1]) + if s.Get(ts[|ts| - 1]).pending.Some? then [ReportOf(ts[|ts| - 1], s.Get(ts[|ts| - 1]).pending.value)] else []
  }

  lemma CloseIs(s: State, t: Track)
    ensures CloseAtReconnect(s, t).reports == FinalizePending(s, t).reports && CloseAtEnd(s, t).reports == FinalizePending(s, t).reports
  {
  }

  lemma {:induction false} CloseAllIs(s: State, ts: seq<Track>)
    requires NoRepeats(ts)
    ensures CloseAllAtReconnect(s, ts).reports == s.reports + Closing(s, ts)
    ensures CloseAllAtEnd(s, ts).reports == s.reports + Closing(s, ts)
  {
    hide CloseAtReconnect, CloseAtEnd, FinalizePending, ReportOf;
    if ts != [] {
      var front, last := ts[..|ts| - 1], ts[|ts| - 1];
      assert last !in front && ts == front + [last];
      CloseAllIs(s, front);
      CloseAllTracks(s, front, last);
      CloseIs(CloseAllAtReconnect(s, front), last);
      CloseIs(CloseAllAtEnd(s, front), last);
      FinalizeIs(CloseAllAtReconnect(s, front), last, last);
      FinalizeIs(CloseAllAtEnd(s, front), last, last);
    }
  }

  lemma {:induction false} ClosingAgrees(env: Env, s0: State, es: seq<Event>, n: nat, s: State, rank: nat)
    requires n <= |es| < TWO64 - 1 && rank <= TRACKS && PendingsAgree(env, s0, es, n, s)
    ensures Closing(s, TracksBelow(s.tracks.Keys, rank)) == ClosedBelow(env, s0, es, n, rank)
  {
    hide ResultsAt, PendingIs, ReportsOf, ReportOf;
    if rank != 0 {
      ClosingAgrees(env, s0, es, n, s, rank - 1);
      var front, last := TracksBelow(s.tracks.Keys, rank - 1), TrackAt(rank - 1);
      assert PendingIs(s.Get(last).pending, ResultsAt(env, s0, es, n, last));
      ReportIs(last, s.Get(last).pending, ResultsAt(env, s0, es, n, last));
      if last in s.tracks {
        assert (front + [last])[..|front|] == front;
      } else {
        assert front + [] == front;
        assert Closing(s, front) + [] == Closing(s, front);
      }
    }
  }

  lemma AllClosing(env: Env, s0: State, es: seq<Event>, n: nat, s: State)
    requires n <= |es| < TWO64 - 1 && PendingsAgree(env, s0, es, n, s)
    ensures var ts := InOrder(s.tracks.Keys);
            && CloseAllAtReconnect(s, ts).reports == s.reports + ClosedBelow(env, s0, es, n, TRACKS)
            && CloseAllAtEnd(s, ts).reports == s.reports + ClosedBelow(env, s0, es, n, TRACKS)
  {
    hide CloseAllAtReconnect, CloseAllAtEnd, Closing, ClosedBelow, TracksBelow, PendingsAgree;
    OrderExact(s.tracks.Keys);
    CloseAllIs(s, InOrder(s.tracks.Keys));
    ClosingAgrees(env, s0, es, n, s, TRACKS);
  }

  lemma ReconnectsReports(env: Env, s0: State, es: seq<Event>, n: nat, s: State)
    requires n < |es| < TWO64 - 1 && es[n].Reconnect? && ReportInv(env, s0, es, n, s)
    ensures ReportInv(env, s0, es, n + 1, Reconnected(s))
  {
    hide CloseAllAtReconnect, ClosedBelow, InOrder, PendingIs, ResultsAt;
    AllClosing(env, s0, es, n, s);
    var later := n + 1;
    forall u ensures PendingIs(Reconnected(s).Get(u).pending, ResultsAt(env, s0, es, later, u)) {
      ReconnectIdle(s, u);
      ResultsStep(env, s0, es, n, u);
      NothingTried();
    }
  }

  // ---- Runs ------------------------------------------------------------------------------------------------------------

  lemma ReportStep(env: Env, s0: State, es: seq<Event>, n: nat, s: State)
    requires n < |es| < TWO64 - 1 && ReportInv(env, s0, es, n, s) && Step(env, s, es[n]).Ok? && Run(env, s0, es[..n]) == Ok(s)
    requires forall t :: StageOf(s.Get(t)) == StageAt(es, n, t)
    ensures ReportInv(env, s0, es, n + 1, Step(env, s, es[n]).value)
  {
    hide ReportInv, Run, StageAt, OnFrame, Reconnected, OnSegmentInfo, StageOf;
    var e := es[n];
    if e.Frame? {
      FrameReports(env, s0, es, n, s);
    } else if e.IsSegmentInfo() {
      SegmentInfoReports(env, s0, es, n, s);
    } else if e.Reconnect? {
      ReconnectsReports(env, s0, es, n, s);
    } else {
      SameReports(env, s0, es, n, s, Step(env, s, e).value);
    }
  }

  lemma {:induction false} ReportsKept(env: Env, s0: State, es: seq<Event>, n: nat)
    requires n <= |es| < TWO64 - 1 && s0.(failures := []) == START && HRun(env, s0, es, n).Some?
    ensures ReportInv(env, s0, es, n, HRun(env, s0, es, n).value.0)
  {
    hide Step, HStep;
    if n != 0 {
      hide ReportInv, Run, FailureInv, StageAt;
      ReportsKept(env, s0, es, n - 1);
      StagesKept(env, s0, es, n - 1);
      HRunIsRun(env, s0, es, n - 1);
      ReportStep(env, s0, es, n - 1, HRun(env, s0, es, n - 1).value.0);
    }
  }

  lemma StagesKept(env: Env, s0: State, es: seq<Event>, n: nat)
    requires n <= |es| < TWO64 - 1 && s0.(failures := []) == START && HRun(env, s0, es, n).Some?
    ensures forall t :: StageOf(HRun(env, s0, es, n).value.0.Get(t)) == StageAt(es, n, t)
  {
    hide HRun, StageAt, AllRaised, SomethingClosed;
    FailuresKept(env, s0, es, n);
  }

  /** The segments of every verdict are exactly those the event list and the attempts call for, in order: one report for each time
      attempts on a track are ended by a frame of it, a reconnection or the end, with the first success, or else the reasons of all
      its attempts. */
  lemma ReportsExact(env: Env, input: Input)
    requires Verify(env, input).Ok?
    ensures |input.events| < TWO64 - 1
    ensures var es, n, s0 := input.events, |input.events|, Begun(input);
            Verify(env, input).value.segments == ReportsAt(env, s0, es, n) + ClosedBelow(env, s0, es, n, TRACKS)
  {
    hide HRun, Run, CloseAllAtEnd, InOrder, ReportsAt, ClosedBelow, PendingsAgree;
    var es, n, s0 := input.events, |input.events|, Begun(input);
    assert es[..n] == es;
    HRunIsRun(env, s0, es, n);
    ReportsKept(env, s0, es, n);
    AllClosing(env, s0, es, n, HRun(env, s0, es, n).value.0);
  }
}
