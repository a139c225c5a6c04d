/** Events of different tracks commute. */
module ErtmpCommute {
  import opened Octets
  import opened ErtmpTypes
  import opened ErtmpSegmentInfo
  import opened ErtmpVerifier
  import opened ErtmpHistory
  import opened ErtmpInvariant

  /** The reports of one track. */
  function OnTrack(reports: seq<SegmentReport>, t: Track): seq<SegmentReport> {
    if reports == [] then []
    else
      var r := reports[|reports| - 1];
      OnTrack(reports[..|reports| - 1], t) + if r.track == t then [r] else []
  }

  lemma {:induction false} OnTrackConcat(a: seq<SegmentReport>, b: seq<SegmentReport>, t: Track)
    ensures OnTrack(a + b, t) == OnTrack(a, t) + OnTrack(b, t)
  {
    if b == [] {
      assert a + b == a;
    } else {
      var front := b[..|b| - 1];
      assert (a + b)[..|a + b| - 1] == a + front;
      OnTrackConcat(a, front, t);
    }
  }

  /** Equal up to how reports of different tracks interleave and the order of failures. */
  ghost predicate Similar(a: State, b: State) {
    && SameShared(a, b) && a.tracks == b.tracks
    && (forall t :: OnTrack(a.reports, t) == OnTrack(b.reports, t))
    && multiset(a.failures) == multiset(b.failures)
  }

  // ---- A similar state stays similar --------------------------------------------------

  /** Reports and failures are only ever appended; the rest does not depend on them. */
  ghost predicate Appended(a: State, a': State, b: State, b': State, reports: seq<SegmentReport>, failures: seq<Failure>) {
    && a'.reports == a.reports + reports && b'.reports == b.reports + reports
    && a'.failures == a.failures + failures && b'.failures == b.failures + failures
    && SameShared(a', b') && a'.tracks == b'.tracks
  }

  lemma AppendedSimilar(a: State, a': State, b: State, b': State, reports: seq<SegmentReport>, failures: seq<Failure>)
    requires Similar(a, b) && Appended(a, a', b, b', reports, failures)
    ensures Similar(a', b')
  {
    forall t ensures OnTrack(a'.reports, t) == OnTrack(b'.reports, t) {
      OnTrackConcat(a.reports, reports, t);
      OnTrackConcat(b.reports, reports, t);
      assert OnTrack(a.reports, t) == OnTrack(b.reports, t);
    }
  }

  /** The report a pending segment will become. */
  function Closing(s: State, t: Track): seq<SegmentReport> {
    if s.Get(t).pending.None? then [] else [ReportOf(t, s.Get(t).pending.value)]
  }

  lemma FinalizeSimilar(a: State, b: State, t: Track)
    requires Similar(a, b)
    ensures Similar(FinalizePending(a, t), FinalizePending(b, t))
  {
    AppendedSimilar(a, FinalizePending(a, t), b, FinalizePending(b, t), Closing(a, t), []);
  }

  lemma CloseReconnectSimilar(a: State, b: State, t: Track)
    requires Similar(a, b)
    ensures Similar(CloseAtReconnect(a, t), CloseAtReconnect(b, t))
  {
    FinalizeSimilar(a, b, t);
    hide FinalizePending;
    var c, d := FinalizePending(a, t), FinalizePending(b, t);
    var failures := if c.Get(t).frames == [] then [] else [OpenAtReconnect(t)];
    AppendedSimilar(c, CloseAtReconnect(a, t), d, CloseAtReconnect(b, t), [], failures);
  }

  lemma CloseEndSimilar(a: State, b: State, t: Track)
    requires Similar(a, b)
    ensures Similar(CloseAtEnd(a, t), CloseAtEnd(b, t))
  {
    FinalizeSimilar(a, b, t);
    hide FinalizePending;
    var c, d := FinalizePending(a, t), FinalizePending(b, t);
    var failures := if c.Get(t).frames == [] then [] else [OpenAtEnd(t)];
    AppendedSimilar(c, CloseAtEnd(a, t), d, CloseAtEnd(b, t), [], failures);
  }

  lemma {:induction false} CloseAllReconnectSimilar(a: State, b: State, ts: seq<Track>)
    requires Similar(a, b)
    ensures Similar(CloseAllAtReconnect(a, ts), CloseAllAtReconnect(b, ts))
  {
    hide Similar, CloseAtReconnect;
    if ts != [] {
      CloseAllReconnectSimilar(a, b, ts[..|ts| - 1]);
      CloseReconnectSimilar(CloseAllAtReconnect(a, ts[..|ts| - 1]), CloseAllAtReconnect(b, ts[..|ts| - 1]), ts[|ts| - 1]);
    }
  }

  lemma {:induction false} CloseAllEndSimilar(a: State, b: State, ts: seq<Track>)
    requires Similar(a, b)
    ensures Similar(CloseAllAtEnd(a, ts), CloseAllAtEnd(b, ts))
  {
    hide Similar, CloseAtEnd;
    if ts != [] {
      CloseAllEndSimilar(a, b, ts[..|ts| - 1]);
      CloseEndSimilar(CloseAllAtEnd(a, ts[..|ts| - 1]), CloseAllAtEnd(b, ts[..|ts| - 1]), ts[|ts| - 1]);
    }
  }

  lemma FrameSimilar(a: State, b: State, e: Event)
    requires e.Frame? && Similar(a, b)
    ensures var x, y := OnFrame(a, e.track, e.csid, e.timestamp, e.offset, e.data), OnFrame(b, e.track, e.csid, e.timestamp, e.offset, e.data);
            (x.Ok? <==> y.Ok?) && (x.Ok? ==> Similar(x.value, y.value))
  {
    FinalizeSimilar(a, b, e.track);
    hide FinalizePending;
    var c, d := FinalizePending(a, e.track), FinalizePending(b, e.track);
    var x, y := OnFrame(a, e.track, e.csid, e.timestamp, e.offset, e.data), OnFrame(b, e.track, e.csid, e.timestamp, e.offset, e.data);
    if x.Ok? {
      AppendedSimilar(c, x.value, d, y.value, [], FrameFailures(c, e.track, e.csid, e.offset));
    }
  }

  /** States that authenticate alike on a track. */
  predicate AgreeOn(a: State, b: State, t: Track) {
    SameShared(a, b) && a.Get(t) == b.Get(t) && (t in a.tracks <==> t in b.tracks)
  }

  lemma CheckAgrees(env: Env, a: State, b: State, t: Track, csid: u32, timestamp: u32, cose: seq<byte>)
    requires AgreeOn(a, b, t)
    ensures CheckCandidate(env, a, t, csid, timestamp, cose) == CheckCandidate(env, b, t, csid, timestamp, cose)
  {
    hide UntrustedSegmentInfo, Preimage;
  }

  lemma AuthenticateAgrees(env: Env, a: State, b: State, t: Track, csid: u32, timestamp: u32, cose: seq<byte>)
    requires AgreeOn(a, b, t)
    ensures var (a', x), (b', y) := Authenticate(env, a, t, csid, timestamp, cose), Authenticate(env, b, t, csid, timestamp, cose);
            x == y && SameShared(a', b')
  {
    CheckAgrees(env, a, b, t, csid, timestamp, cose);
    hide CheckCandidate, Bind, FindKey, InitializationData;
  }

  /** A SegmentInfo acts alike on states that agree on its track. */
  lemma SegmentInfoAgrees(env: Env, a: State, b: State, e: Event)
    requires e.IsSegmentInfo() && AgreeOn(a, b, e.track)
    ensures var x, y := OnSegmentInfo(env, a, e.track, e.csid, e.timestamp, e.value), OnSegmentInfo(env, b, e.track, e.csid, e.timestamp, e.value);
            && (x.Ok? <==> y.Ok?)
            && (x.Ok? ==> AgreeOn(x.value, y.value, e.track))
  {
    var p := PendingOf(a, e.track);
    AuthenticateAgrees(env, WithPending(a, e.track, p), WithPending(b, e.track, p), e.track, e.csid, e.timestamp, e.value);
    AttemptEffect(env, WithPending(a, e.track, p), e.track, e.csid, e.timestamp, e.value);
    AttemptEffect(env, WithPending(b, e.track, p), e.track, e.csid, e.timestamp, e.value);
    hide Authenticate;
  }

  /** What a SegmentInfo may report as a stream failure. */
  function SegmentInfoFailure(s: State, t: Track): seq<Failure> {
    if s.Get(t).frames == [] && s.Get(t).pending.None? then [ClosesNothing(t)] else []
  }

  /** A SegmentInfo changes its own track, manifests and keys, and appends no report. */
  lemma SegmentInfoEffect(env: Env, s: State, e: Event)
    requires e.IsSegmentInfo() && OnSegmentInfo(env, s, e.track, e.csid, e.timestamp, e.value).Ok?
    ensures var s' := OnSegmentInfo(env, s, e.track, e.csid, e.timestamp, e.value).value;
            && s'.reports == s.reports
            && s'.failures == s.failures + SegmentInfoFailure(s, e.track)
            && s'.configs == s.configs && s'.nextRevision == s.nextRevision && s'.active == s.active
            && s'.tracks == (if e.track in s'.tracks then s.tracks[e.track := s'.tracks[e.track]] else s.tracks)
            && (e.track in s'.tracks <==> e.track in s.tracks || SegmentInfoFailure(s, e.track) == [])
  {
    var p := PendingOf(s, e.track);
    AttemptEffect(env, WithPending(s, e.track, p), e.track, e.csid, e.timestamp, e.value);
    hide Authenticate;
  }

  lemma SegmentInfoSimilar(env: Env, a: State, b: State, e: Event)
    requires e.IsSegmentInfo() && Similar(a, b)
    ensures var x, y := OnSegmentInfo(env, a, e.track, e.csid, e.timestamp, e.value), OnSegmentInfo(env, b, e.track, e.csid, e.timestamp, e.value);
            (x.Ok? <==> y.Ok?) && (x.Ok? ==> Similar(x.value, y.value))
  {
    hide OnSegmentInfo;
    var x, y := OnSegmentInfo(env, a, e.track, e.csid, e.timestamp, e.value), OnSegmentInfo(env, b, e.track, e.csid, e.timestamp, e.value);
    SegmentInfoAgrees(env, a, b, e);
    if x.Ok? {
      SegmentInfoEffect(env, a, e);
      SegmentInfoEffect(env, b, e);
      AppendedSimilar(a, x.value, b, y.value, [], SegmentInfoFailure(a, e.track));
    }
  }

  lemma ManifestSimilar(env: Env, a: State, b: State, e: Event)
    requires e.IsManifest() && Similar(a, b)
    ensures var x, y := OnManifest(env, a, e.track, e.csid, e.value), OnManifest(env, b, e.track, e.csid, e.value);
            (x.Ok? <==> y.Ok?) && (x.Ok? ==> Similar(x.value, y.value))
  {
    var x, y := OnManifest(env, a, e.track, e.csid, e.value), OnManifest(env, b, e.track, e.csid, e.value);
    if x.Ok? {
      var failures := if e.track in a.configs && a.configs[e.track].csid != e.csid then [ManifestChunkStream(e.track)] else [];
      AppendedSimilar(a, x.value, b, y.value, [], failures);
    }
  }

  lemma ReconnectSimilar(a: State, b: State)
    requires Similar(a, b)
    ensures Similar(Reconnected(a), Reconnected(b))
  {
    hide CloseAllAtReconnect, InOrder;
    var ts := InOrder(a.tracks.Keys);
    CloseAllReconnectSimilar(a, b, ts);
    AppendedSimilar(CloseAllAtReconnect(a, ts), Reconnected(a), CloseAllAtReconnect(b, ts), Reconnected(b), [], []);
  }

  lemma StepSimilar(env: Env, a: State, b: State, e: Event)
    requires Similar(a, b)
    ensures Step(env, a, e).Ok? <==> Step(env, b, e).Ok?
    ensures Step(env, a, e).Ok? ==> Similar(Step(env, a, e).value, Step(env, b, e).value)
  {
    hide OnFrame, OnManifest, OnSegmentInfo, Reconnected;
    if e.Frame? {
      FrameSimilar(a, b, e);
    } else if e.IsManifest() {
      ManifestSimilar(env, a, b, e);
    } else if e.IsSegmentInfo() {
      SegmentInfoSimilar(env, a, b, e);
    } else if e.Reconnect? {
      ReconnectSimilar(a, b);
    }
  }

  lemma {:induction false} RunSimilar(env: Env, a: State, b: State, es: seq<Event>)
    requires Similar(a, b)
    ensures Run(env, a, es).Ok? <==> Run(env, b, es).Ok?
    ensures Run(env, a, es).Ok? ==> Similar(Run(env, a, es).value, Run(env, b, es).value)
  {
    hide Similar, Step;
    if es != [] {
      var front := es[..|es| - 1];
      RunSimilar(env, a, b, front);
      if Run(env, a, front).Ok? {
        StepSimilar(env, Run(env, a, front).value, Run(env, b, front).value, es[|es| - 1]);
      }
    }
  }

  // ---- Two events of different tracks --------------------------------------------------------

  predicate Local(e: Event) {
    e.Frame? || e.IsSegmentInfo()
  }

  /** Reports and failures a frame or SegmentInfo appends. */
  function AddedReports(s: State, e: Event): seq<SegmentReport>
    requires Local(e)
  {
    if e.Frame? then Closing(s, e.track) else []
  }

  function AddedFailures(s: State, e: Event): seq<Failure>
    requires Local(e)
  {
    if e.Frame? then FrameFailures(s, e.track, e.csid, e.offset) else SegmentInfoFailure(s, e.track)
  }

  /** States on which a frame acts alike: manifests and keys do not matter to it. */
  predicate AgreeForFrame(a: State, b: State, t: Track) {
    && a.configs == b.configs && a.nextRevision == b.nextRevision && a.active == b.active
    && a.Get(t) == b.Get(t) && (t in a.tracks <==> t in b.tracks)
  }

  /** A frame or SegmentInfo changes nothing of other tracks and appends what its own track and the clock determine. */
  ghost predicate Effect(s: State, s': State, e: Event)
    requires Local(e)
  {
    && s'.reports == s.reports + AddedReports(s, e)
    && s'.failures == s.failures + AddedFailures(s, e)
    && s'.configs == s.configs && s'.nextRevision == s.nextRevision && s'.active == s.active
    && s'.tracks == (if e.track in s'.tracks then s.tracks[e.track := s'.tracks[e.track]] else s.tracks)
    && (e.Frame? ==> s'.manifests == s.manifests && s'.keyTracks == s.keyTracks)
  }

  lemma FrameEffect(s: State, e: Event)
    requires e.Frame? && OnFrame(s, e.track, e.csid, e.timestamp, e.offset, e.data).Ok?
    ensures Effect(s, OnFrame(s, e.track, e.csid, e.timestamp, e.offset, e.data).value, e)
  {
    FinalizeEffect(s, e.track);
    assert FrameFailures(FinalizePending(s, e.track), e.track, e.csid, e.offset) == FrameFailures(s, e.track, e.csid, e.offset);
    hide FinalizePending, FrameFailures, Closing;
  }

  lemma FinalizeEffect(s: State, t: Track)
    ensures var s' := FinalizePending(s, t);
            && SameShared(s', s) && s'.failures == s.failures && s'.reports == s.reports + Closing(s, t)
            && s'.tracks == (if t in s'.tracks then s.tracks[t := s'.tracks[t]] else s.tracks)
  {
  }

  lemma FrameAgrees(a: State, b: State, e: Event)
    requires e.Frame? && AgreeForFrame(a, b, e.track)
    ensures var x, y := OnFrame(a, e.track, e.csid, e.timestamp, e.offset, e.data), OnFrame(b, e.track, e.csid, e.timestamp, e.offset, e.data);
            (x.Ok? <==> y.Ok?) && (x.Ok? ==> AgreeForFrame(x.value, y.value, e.track))
  {
    hide FinalizePending, FrameFailures, SameShared;
    FinalizeAgrees(a, b, e.track);
    var x, y := FinalizePending(a, e.track), FinalizePending(b, e.track);
    assert Recorded(x, e.track, e.offset) <==> Recorded(y, e.track, e.offset);
  }

  lemma FinalizeAgrees(a: State, b: State, t: Track)
    requires AgreeForFrame(a, b, t)
    ensures AgreeForFrame(FinalizePending(a, t), FinalizePending(b, t), t)
  {
  }

  lemma LocalEffect(env: Env, s: State, e: Event)
    requires Local(e) && Step(env, s, e).Ok?
    ensures Effect(s, Step(env, s, e).value, e)
  {
    hide OnFrame, OnSegmentInfo;
    if e.Frame? { FrameEffect(s, e); } else { SegmentInfoEffect(env, s, e); }
  }

  lemma LocalAgrees(env: Env, a: State, b: State, e: Event)
    requires Local(e) && AgreeOn(a, b, e.track)
    ensures Step(env, a, e).Ok? <==> Step(env, b, e).Ok?
    ensures Step(env, a, e).Ok? ==> AgreeOn(Step(env, a, e).value, Step(env, b, e).value, e.track)
    ensures AddedReports(a, e) == AddedReports(b, e) && AddedFailures(a, e) == AddedFailures(b, e)
  {
    hide OnFrame, OnSegmentInfo;
    if e.Frame? {
      FrameAgrees(a, b, e);
      if Step(env, a, e).Ok? {
        OnFrameKeepsShared(a, e.track, e.csid, e.timestamp, e.offset, e.data);
        OnFrameKeepsShared(b, e.track, e.csid, e.timestamp, e.offset, e.data);
      }
    } else {
      SegmentInfoAgrees(env, a, b, e);
    }
  }

  lemma {:induction false} OnlyTrack(reports: seq<SegmentReport>, t: Track, u: Track)
    requires (forall i :: 0 <= i < |reports| ==> reports[i].track == t) && t != u
    ensures OnTrack(reports, u) == []
  {
    if reports != [] {
      OnlyTrack(reports[..|reports| - 1], t, u);
    }
  }

  /** Reports of two tracks appended in either order read the same on every track. */
  lemma EitherOrder(base: seq<SegmentReport>, a: seq<SegmentReport>, b: seq<SegmentReport>, t: Track, u: Track, w: Track)
    requires t != u
    requires (forall i :: 0 <= i < |a| ==> a[i].track == t) && (forall i :: 0 <= i < |b| ==> b[i].track == u)
    ensures OnTrack(base + a + b, w) == OnTrack(base + b + a, w)
  {
    OnTrackConcat(base + a, b, w);
    OnTrackConcat(base, a, w);
    OnTrackConcat(base + b, a, w);
    OnTrackConcat(base, b, w);
    if w != t { OnlyTrack(a, t, w); }
    if w != u { OnlyTrack(b, u, w); }
  }

  /** The two orders of a frame and a frame or SegmentInfo of another track fail together or lead to similar states. */
  lemma AdjacentCommute(env: Env, s: State, e: Event, f: Event)
    requires e.Frame? && Local(f) && e.track != f.track
    ensures Run(env, s, [e, f]).Ok? <==> Run(env, s, [f, e]).Ok?
    ensures Run(env, s, [e, f]).Ok? ==> Similar(Run(env, s, [e, f]).value, Run(env, s, [f, e]).value)
  {
    RunTwo(env, s, e, f);
    RunTwo(env, s, f, e);
    hide Run, Step, Similar, AgreeOn, Effect, SameShared;
    var x, y := Step(env, s, e), Step(env, s, f);
    if x.Ok? {
      FirstLeavesOther(env, s, e, f);
      LocalAgrees(env, s, x.value, f);
    }
    if y.Ok? {
      SecondKeepsFrame(env, s, f, e);
    }
    if x.Ok? && y.Ok? {
      BothOrders(env, s, e, f);
    }
  }

  lemma RunTwo(env: Env, s: State, e: Event, f: Event)
    ensures Run(env, s, [e, f]) == if Step(env, s, e).Err? then Step(env, s, e) else Step(env, Step(env, s, e).value, f)
  {
    hide Step;
    assert [e, f][..1] == [e];
    assert [e][..0] == [];
    assert Run(env, s, []) == Ok(s);
    assert Run(env, s, [e]) == Step(env, s, e);
  }

  /** After a frame another track sees the same state. */
  lemma FirstLeavesOther(env: Env, s: State, e: Event, f: Event)
    requires e.Frame? && Local(f) && e.track != f.track && Step(env, s, e).Ok?
    ensures AgreeOn(s, Step(env, s, e).value, f.track)
  {
    LocalEffect(env, s, e);
    hide Step, AddedReports, AddedFailures;
  }

  /** A frame acts alike before and after an event of another track. */
  lemma SecondKeepsFrame(env: Env, s: State, f: Event, e: Event)
    requires e.Frame? && Local(f) && e.track != f.track && Step(env, s, f).Ok?
    ensures AgreeForFrame(s, Step(env, s, f).value, e.track)
    ensures Step(env, s, e).Ok? <==> Step(env, Step(env, s, f).value, e).Ok?
  {
    LocalEffect(env, s, f);
    hide OnFrame, OnSegmentInfo, AddedReports, AddedFailures;
    FrameAgrees(s, Step(env, s, f).value, e);
  }

  lemma BothOrders(env: Env, s: State, e: Event, f: Event)
    requires e.Frame? && Local(f) && e.track != f.track && Step(env, s, e).Ok? && Step(env, s, f).Ok?
    requires Step(env, Step(env, s, e).value, f).Ok? && Step(env, Step(env, s, f).value, e).Ok?
    ensures Similar(Step(env, Step(env, s, e).value, f).value, Step(env, Step(env, s, f).value, e).value)
  {
    var x, y := Step(env, s, e).value, Step(env, s, f).value;
    var xy, yx := Step(env, x, f).value, Step(env, y, e).value;
    FirstLeavesOther(env, s, e, f);
    LocalAgrees(env, s, x, f);
    SecondKeepsFrame(env, s, f, e);
    FrameAgreesStep(env, s, y, e);
    LocalEffect(env, s, e);
    LocalEffect(env, s, f);
    LocalEffect(env, x, f);
    LocalEffect(env, y, e);
    SameTracks(s, x, y, xy, yx, e.track, f.track);
    SameReports(s, x, y, xy, yx, e, f);
  }

  lemma FrameAgreesStep(env: Env, a: State, b: State, e: Event)
    requires e.Frame? && AgreeForFrame(a, b, e.track) && Step(env, a, e).Ok? && Step(env, b, e).Ok?
    ensures AgreeForFrame(Step(env, a, e).value, Step(env, b, e).value, e.track)
    ensures AddedReports(a, e) == AddedReports(b, e) && AddedFailures(a, e) == AddedFailures(b, e)
  {
    hide OnFrame;
    FrameAgrees(a, b, e);
  }

  lemma SameTracks(s: State, x: State, y: State, xy: State, yx: State, t: Track, u: Track)
    requires t != u
    requires x.tracks == (if t in x.tracks then s.tracks[t := x.tracks[t]] else s.tracks)
    requires y.tracks == (if u in y.tracks then s.tracks[u := y.tracks[u]] else s.tracks)
    requires xy.tracks == (if u in xy.tracks then x.tracks[u := xy.tracks[u]] else x.tracks)
    requires yx.tracks == (if t in yx.tracks then y.tracks[t := yx.tracks[t]] else y.tracks)
    requires y.Get(u) == xy.Get(u) && (u in y.tracks <==> u in xy.tracks)
    requires x.Get(t) == yx.Get(t) && (t in x.tracks <==> t in yx.tracks)
    ensures xy.tracks == yx.tracks
  {
  }

  lemma AddedOnTrack(s: State, e: Event)
    requires Local(e)
    ensures forall i :: 0 <= i < |AddedReports(s, e)| ==> AddedReports(s, e)[i].track == e.track
  {
  }

  lemma SameReports(s: State, x: State, y: State, xy: State, yx: State, e: Event, f: Event)
    requires e.Frame? && Local(f) && e.track != f.track && SameShared(xy, yx) && xy.tracks == yx.tracks
    requires Effect(s, x, e) && Effect(s, y, f) && Effect(x, xy, f) && Effect(y, yx, e)
    requires AddedReports(x, f) == AddedReports(s, f) && AddedFailures(x, f) == AddedFailures(s, f)
    requires AddedReports(y, e) == AddedReports(s, e) && AddedFailures(y, e) == AddedFailures(s, e)
    ensures Similar(xy, yx)
  {
    hide AddedReports, AddedFailures, OnTrack, SameShared;
    var a, b := AddedReports(s, e), AddedReports(s, f);
    AddedOnTrack(s, e);
    AddedOnTrack(s, f);
    forall w ensures OnTrack(xy.reports, w) == OnTrack(yx.reports, w) {
      EitherOrder(s.reports, a, b, e.track, f.track, w);
    }
  }

  // ---- Whole inputs -----------------------------------------------------------------------------

  lemma {:induction false} RunConcat(env: Env, s: State, a: seq<Event>, b: seq<Event>)
    ensures Run(env, s, a + b) == if Run(env, s, a).Err? then Run(env, s, a) else Run(env, Run(env, s, a).value, b)
  {
    hide Step;
    if b == [] {
      assert a + b == a;
    } else {
      assert (a + b)[..|a + b| - 1] == a + b[..|b| - 1];
      RunConcat(env, s, a, b[..|b| - 1]);
    }
  }

  /** Verdicts that differ only in how reports of different tracks interleave. */
  ghost predicate SameVerdict(a: Verdict, b: Verdict) {
    && a.valid == b.valid && a.manifests == b.manifests && multiset(a.failures) == multiset(b.failures)
    && forall t :: OnTrack(a.segments, t) == OnTrack(b.segments, t)
  }

  lemma {:induction false} OnTrackMember(reports: seq<SegmentReport>, r: SegmentReport)
    ensures r in reports <==> r in OnTrack(reports, r.track)
  {
    if reports != [] {
      OnTrackMember(reports[..|reports| - 1], r);
      assert reports == reports[..|reports| - 1] + [reports[|reports| - 1]];
    }
  }

  lemma SimilarMembers(a: State, b: State, r: SegmentReport)
    requires Similar(a, b)
    ensures r in a.reports <==> r in b.reports
  {
    OnTrackMember(a.reports, r);
    OnTrackMember(b.reports, r);
    assert OnTrack(a.reports, r.track) == OnTrack(b.reports, r.track);
  }

  lemma SimilarVerdict(a: State, b: State)
    requires Similar(a, b)
    ensures a.reports == [] <==> b.reports == []
    ensures SameVerdict(VerdictOf(a), VerdictOf(b))
  {
    hide OnTrack;
    assert |a.failures| == |multiset(a.failures)| && |b.failures| == |multiset(b.failures)|;
    forall i | 0 <= i < |a.reports| ensures a.reports[i] in b.reports { SimilarMembers(a, b, a.reports[i]); }
    forall i | 0 <= i < |b.reports| ensures b.reports[i] in a.reports { SimilarMembers(a, b, b.reports[i]); }
    if a.reports != [] { assert a.reports[0] in b.reports; }
    if b.reports != [] { assert b.reports[0] in a.reports; }
  }

  lemma EndedSimilar(a: State, b: State)
    requires Similar(a, b)
    ensures SameVerdict(VerdictOf(Ended(a)), VerdictOf(Ended(b)))
  {
    hide CloseAllAtEnd, InOrder, VerdictOf;
    var ts := InOrder(a.tracks.Keys);
    CloseAllEndSimilar(a, b, ts);
    var c, d := CloseAllAtEnd(a, ts), CloseAllAtEnd(b, ts);
    SimilarVerdict(c, d);
    AppendedSimilar(c, Ended(a), d, Ended(b), [], if c.reports == [] then [NoSegment] else []);
    SimilarVerdict(Ended(a), Ended(b));
  }

  /** Swapping a frame with an adjacent frame or SegmentInfo of another track changes neither the verdict nor any
      track's sequence of segment reports. */
  lemma TracksCommute(env: Env, input: Input, before: seq<Event>, e: Event, f: Event, after: seq<Event>)
    requires e.Frame? && Local(f) && e.track != f.track
    requires input.events == before + [e, f] + after
    ensures var x, y := Verify(env, input), Verify(env, input.(events := before + [f, e] + after));
            (x.Ok? <==> y.Ok?) && (x.Ok? ==> SameVerdict(x.value, y.value))
  {
    hide Run, Similar, Ended, VerdictOf;
    var s0 := Begun(input);
    RunConcat(env, s0, before + [e, f], after);
    RunConcat(env, s0, before + [f, e], after);
    RunConcat(env, s0, before, [e, f]);
    RunConcat(env, s0, before, [f, e]);
    var s := Run(env, s0, before);
    if s.Ok? {
      AdjacentCommute(env, s.value, e, f);
      var x, y := Run(env, s.value, [e, f]), Run(env, s.value, [f, e]);
      if x.Ok? {
        RunSimilar(env, x.value, y.value, after);
        if Run(env, x.value, after).Ok? {
          EndedSimilar(Run(env, x.value, after).value, Run(env, y.value, after).value);
        }
      }
    }
  }
}
