/** Which events put which failures into the verdict, in terms of the event list alone. */
module ErtmpFailures {
  import opened Octets
  import opened ErtmpTypes
  import opened ErtmpSegmentInfo
  import opened ErtmpVerifier
  import opened ErtmpTimeline
  import opened ErtmpHistory
  import opened ErtmpInvariant

  // ---- What the event list says -----------------------------------------------------------

  /** A track's segment: nothing to close, frames nobody has tried to close, or frames somebody has. */
  datatype Stage = Empty | Unclosed | Attempted

  /** A frame counts if its offset fits three octets and its track is configured. */
  predicate Counts(es: seq<Event>, i: nat)
    requires i < |es| < TWO64 - 1
  {
    es[i].Frame? && -0x80_0000 <= es[i].offset < 0x80_0000 && es[i].track in ConfigsOf(es, i)
  }

  function StageAt(es: seq<Event>, n: nat, t: Track): Stage
    requires n <= |es| < TWO64 - 1
  {
    if n == 0 || es[n - 1].Reconnect? then Empty
    else
      var before := StageAt(es, n - 1, t);
      if es[n - 1].IsFrameOn(t) then
        (if Counts(es, n - 1) then Unclosed else if before.Attempted? then Empty else before)
      else if es[n - 1].IsSegmentInfo() && es[n - 1].track == t && !before.Empty? then Attempted
      else before
  }

  /** A manifest has been delivered, and nothing reconnected or was configured since. */
  predicate ManifestFresh(es: seq<Event>, n: nat)
    requires n <= |es|
  {
    var j := LastManifest(es, n);
    j.Some? && NoReconnect(es, j.value, n) && NoConfigAtAll(es, j.value, n)
  }

  /** The tracks of rank below `rank` whose frames nobody has tried to close, in order. */
  function UnclosedBelow(es: seq<Event>, n: nat, rank: nat): seq<Track>
    requires n <= |es| < TWO64 - 1 && rank <= TRACKS
  {
    if rank == 0 then []
    else UnclosedBelow(es, n, rank - 1) + if StageAt(es, n, TrackAt(rank - 1)).Unclosed? then [TrackAt(rank - 1)] else []
  }

  function AtReconnect(ts: seq<Track>): (fs: seq<Failure>)
    ensures |fs| == |ts|
  {
    seq(|ts|, i requires 0 <= i < |ts| => OpenAtReconnect(ts[i]))
  }

  function AtEnd(ts: seq<Track>): (fs: seq<Failure>)
    ensures |fs| == |ts|
  {
    seq(|ts|, i requires 0 <= i < |ts| => OpenAtEnd(ts[i]))
  }

  /** What event `n` is reported for. */
  function Raised(es: seq<Event>, n: nat): seq<Failure>
    requires n < |es| < TWO64 - 1
  {
    var e := es[n];
    if e.Reconnect? then AtReconnect(UnclosedBelow(es, n, TRACKS))
    else if e.Frame? then
      if !(-0x80_0000 <= e.offset < 0x80_0000) then [OffsetOutOfRange(e.track)]
      else
        (if ManifestFresh(es, n) then [] else [FrameBeforeManifest]) +
        (if e.track !in ConfigsOf(es, n) then [FrameBeforeConfig(e.track)]
         else if ConfigsOf(es, n)[e.track].csid != e.csid then [FrameChunkStream(e.track)] else [])
    else if e.IsManifest() then
      if e.track in ConfigsOf(es, n) && ConfigsOf(es, n)[e.track].csid != e.csid then [ManifestChunkStream(e.track)] else []
    else if e.IsSegmentInfo() then
      if StageAt(es, n, e.track).Empty? then [ClosesNothing(e.track)] else []
    else []
  }

  function AllRaised(es: seq<Event>, n: nat): seq<Failure>
    requires n <= |es| < TWO64 - 1
  {
    if n == 0 then [] else AllRaised(es, n - 1) + Raised(es, n - 1)
  }

  /** Some SegmentInfo had frames to close. */
  ghost predicate SomethingClosed(es: seq<Event>, n: nat)
    requires n <= |es| < TWO64 - 1
  {
    exists k :: 0 <= k < n && es[k].IsSegmentInfo() && !StageAt(es, k, es[k].track).Empty?
  }

  // ---- The state agrees -----------------------------------------------------------------------

  function StageOf(st: TrackState): Stage {
    if st.pending.Some? then Attempted else if st.frames != [] then Unclosed else Empty
  }

  ghost predicate Reported(s: State) {
    s.reports != [] || exists t :: s.Get(t).pending.Some?
  }

  ghost predicate FailureInv(es: seq<Event>, n: nat, s0: State, s: State)
    requires n <= |es| < TWO64 - 1
  {
    && s.failures == s0.failures + AllRaised(es, n)
    && (forall t :: StageOf(s.Get(t)) == StageAt(es, n, t))
    && (Reported(s) <==> SomethingClosed(es, n))
  }

  lemma {:induction false} NoConfigsBetween(es: seq<Event>, m: nat, n: nat)
    requires m <= n <= |es| && NoConfigAtAll(es, m, n)
    ensures NumConfigs(es, m) == NumConfigs(es, n)
    decreases n
  {
    if m < n {
      NoConfigsBetween(es, m, n - 1);
    }
  }

  /** The active manifest's flags tell exactly what has happened since its delivery. */
  lemma {:induction false} ActiveExactly(env: Env, es: seq<Event>, n: nat)
    requires n <= |es| < TWO64 - 1
    requires forall i :: 0 <= i < n && es[i].IsManifest() ==> env.parseManifest(es[i].value).Some?
    ensures ActiveOf(env, es, n).Some? <==> LastManifest(es, n).Some?
    ensures LastManifest(es, n).Some? ==>
              var a, j := ActiveOf(env, es, n).value, LastManifest(es, n).value;
              a.revision == NumConfigs(es, j) && (a.sinceReconnect <==> NoReconnect(es, j, n))
  {
    if n != 0 && !es[n - 1].IsManifest() {
      ActiveExactly(env, es, n - 1);
    }
  }

  lemma InForceMeans(env: Env, es: seq<Event>, n: nat, s: State)
    requires n <= |es| < TWO64 - 1 && ClockInv(env, es, n, s)
    ensures ManifestInForce(s) <==> ManifestFresh(es, n)
  {
    hide ActiveOf, ConfigsOf;
    ActiveExactly(env, es, n);
    var j := LastManifest(es, n);
    if j.Some? {
      NumConfigsMonotone(es, j.value, n);
      if NoConfigAtAll(es, j.value, n) {
        NoConfigsBetween(es, j.value, n);
      }
    }
  }

  // ---- Frames, manifests and SegmentInfos --------------------------------------------------------

  lemma FrameRaises(env: Env, es: seq<Event>, n: nat, s: State)
    requires n < |es| < TWO64 - 1 && es[n].Frame? && ClockInv(env, es, n, s)
    ensures FrameFailures(s, es[n].track, es[n].csid, es[n].offset) == Raised(es, n)
    ensures Recorded(s, es[n].track, es[n].offset) <==> Counts(es, n)
  {
    InForceMeans(env, es, n, s);
    hide ManifestInForce, ManifestFresh, ConfigsOf, ActiveOf;
  }

  lemma FinalizedStage(s: State, t: Track, u: Track)
    ensures var f := FinalizePending(s, t);
            StageOf(f.Get(u)) == if u == t && StageOf(s.Get(u)).Attempted? then Empty else StageOf(s.Get(u))
    ensures FinalizePending(s, t).failures == s.failures && FinalizePending(s, t).configs == s.configs
    ensures FinalizePending(s, t).Get(t).pending.None?
  {
  }

  lemma SameReported(a: State, b: State)
    requires a.reports == b.reports && forall t :: a.Get(t).pending == b.Get(t).pending
    ensures Reported(a) <==> Reported(b)
  {
    if exists t :: a.Get(t).pending.Some? {
      var t :| a.Get(t).pending.Some?;
      assert b.Get(t).pending.Some?;
    }
    if exists t :: b.Get(t).pending.Some? {
      var t :| b.Get(t).pending.Some?;
      assert a.Get(t).pending.Some?;
    }
  }

  lemma FinalizedReported(s: State, t: Track)
    ensures Reported(FinalizePending(s, t)) <==> Reported(s)
  {
    if s.Get(t).pending.Some? {
      assert FinalizePending(s, t).reports != [] && Reported(s);
    } else {
      assert FinalizePending(s, t) == s;
    }
  }

  lemma FrameStep(s: State, e: Event, u: Track)
    requires e.Frame? && OnFrame(s, e.track, e.csid, e.timestamp, e.offset, e.data).Ok?
    ensures var s' := OnFrame(s, e.track, e.csid, e.timestamp, e.offset, e.data).value;
            && s'.failures == s.failures + FrameFailures(FinalizePending(s, e.track), e.track, e.csid, e.offset)
            && (StageOf(s'.Get(u)) == if u == e.track && Recorded(s, e.track, e.offset) then Unclosed
                                      else StageOf(FinalizePending(s, e.track).Get(u)))
            && (Reported(s') <==> Reported(FinalizePending(s, e.track)))
  {
    FinalizedStage(s, e.track, u);
    FinalizedStage(s, e.track, e.track);
    var f, s' := FinalizePending(s, e.track), OnFrame(s, e.track, e.csid, e.timestamp, e.offset, e.data).value;
    hide FinalizePending, FrameFailures, Reported;
    SameReported(s', f);
  }

  lemma SomethingClosedStep(es: seq<Event>, n: nat)
    requires n < |es| < TWO64 - 1
    ensures SomethingClosed(es, n + 1) <==>
            SomethingClosed(es, n) || (es[n].IsSegmentInfo() && !StageAt(es, n, es[n].track).Empty?)
  {
    hide StageAt;
    if SomethingClosed(es, n) {
      var k :| 0 <= k < n && es[k].IsSegmentInfo() && !StageAt(es, k, es[k].track).Empty?;
    }
  }

  lemma FrameKept(env: Env, es: seq<Event>, n: nat, s0: State, s: State)
    requires n < |es| < TWO64 - 1 && es[n].Frame? && ClockInv(env, es, n, s) && FailureInv(es, n, s0, s) && Step(env, s, es[n]).Ok?
    ensures FailureInv(es, n + 1, s0, Step(env, s, es[n]).value)
  {
    var e, later, s' := es[n], n + 1, Step(env, s, es[n]).value;
    var f := FinalizePending(s, e.track);
    FinalizedStage(s, e.track, e.track);
    FinalizeShares(s, e.track);
    SameClock(env, es, n, s, f);
    FrameRaises(env, es, n, f);
    FinalizedReported(s, e.track);
    SomethingClosedStep(es, n);
    hide FinalizePending, OnFrame, FrameFailures, Recorded, Counts, Reported, SomethingClosed, ClockInv, Raised;
    assert Recorded(s, e.track, e.offset) <==> Recorded(f, e.track, e.offset) by { SameRecorded(s, f, e); }
    FrameStep(s, e, e.track);
    forall u ensures StageOf(s'.Get(u)) == StageAt(es, later, u) {
      FrameStep(s, e, u);
      FinalizedStage(s, e.track, u);
    }
  }

  lemma SameRecorded(s: State, f: State, e: Event)
    requires e.Frame? && f.configs == s.configs
    ensures Recorded(s, e.track, e.offset) <==> Recorded(f, e.track, e.offset)
  {
  }

  lemma FinalizeShares(s: State, t: Track)
    ensures var f := FinalizePending(s, t); f.configs == s.configs && f.nextRevision == s.nextRevision && f.active == s.active
  {
  }

  lemma ManifestKept(env: Env, es: seq<Event>, n: nat, s0: State, s: State)
    requires n < |es| < TWO64 - 1 && es[n].IsManifest() && ClockInv(env, es, n, s) && FailureInv(es, n, s0, s) && Step(env, s, es[n]).Ok?
    ensures FailureInv(es, n + 1, s0, Step(env, s, es[n]).value)
  {
    var s', later := Step(env, s, es[n]).value, n + 1;
    SomethingClosedStep(es, n);
    hide SomethingClosed, ConfigsOf, ActiveOf;
    assert s'.tracks == s.tracks && s'.reports == s.reports;
    SameReported(s', s);
    hide Reported;
    forall u ensures StageOf(s'.Get(u)) == StageAt(es, later, u) {
      assert StageOf(s.Get(u)) == StageAt(es, n, u);
    }
  }

  lemma SegmentInfoStep(env: Env, s: State, e: Event, u: Track)
    requires e.IsSegmentInfo() && Step(env, s, e).Ok?
    ensures var s', t := Step(env, s, e).value, e.track;
            && s'.failures == s.failures + (if StageOf(s.Get(t)).Empty? then [ClosesNothing(t)] else [])
            && (u != t ==> s'.Get(u) == s.Get(u))
            && s'.reports == s.reports
            && (if StageOf(s.Get(t)).Empty? then s'.Get(t) == s.Get(t) else s'.Get(t).pending.Some?)
  {
    hide Authenticate;
    var t := e.track;
    if !StageOf(s.Get(t)).Empty? {
      AttemptEffect(env, WithPending(s, t, PendingOf(s, t)), t, e.csid, e.timestamp, e.value);
    }
  }

  lemma SegmentInfoKept(env: Env, es: seq<Event>, n: nat, s0: State, s: State)
    requires n < |es| < TWO64 - 1 && es[n].IsSegmentInfo() && FailureInv(es, n, s0, s) && Step(env, s, es[n]).Ok?
    ensures FailureInv(es, n + 1, s0, Step(env, s, es[n]).value)
  {
    var e, s', later := es[n], Step(env, s, es[n]).value, n + 1;
    SomethingClosedStep(es, n);
    hide SomethingClosed, OnSegmentInfo, ConfigsOf;
    SegmentInfoStep(env, s, e, e.track);
    assert StageOf(s.Get(e.track)) == StageAt(es, n, e.track);
    forall u ensures StageOf(s'.Get(u)) == StageAt(es, later, u) {
      SegmentInfoStep(env, s, e, u);
      assert StageOf(s.Get(u)) == StageAt(es, n, u);
    }
    if StageOf(s.Get(e.track)).Empty? {
      forall u ensures s'.Get(u).pending == s.Get(u).pending {
        SegmentInfoStep(env, s, e, u);
      }
    } else {
      assert s'.Get(e.track).pending.Some?;
    }
  }

  lemma QuietKept(env: Env, es: seq<Event>, n: nat, s0: State, s: State)
    requires n < |es| < TWO64 - 1 && FailureInv(es, n, s0, s) && Step(env, s, es[n]).Ok?
    requires es[n].CodecConfig? || (es[n].Metadata? && es[n].name.OtherName?)
    ensures FailureInv(es, n + 1, s0, Step(env, s, es[n]).value)
  {
    var s', later := Step(env, s, es[n]).value, n + 1;
    SomethingClosedStep(es, n);
    hide SomethingClosed, ConfigsOf;
    assert s'.tracks == s.tracks && s'.reports == s.reports && s'.failures == s.failures;
    SameReported(s', s);
    hide Reported;
    forall u ensures StageOf(s'.Get(u)) == StageAt(es, later, u) {
      assert StageOf(s.Get(u)) == StageAt(es, n, u);
    }
  }

  // ---- Closing all tracks ----------------------------------------------------------------------------

  /** Those of the listed tracks whose frames nobody has tried to close. */
  function UnclosedOf(s: State, ts: seq<Track>): seq<Track> {
    if ts == [] then []
    else UnclosedOf(s, ts[..|ts| - 1]) + if StageOf(s.Get(ts[|ts| - 1])).Unclosed? then [ts[|ts| - 1]] else []
  }

  predicate NoRepeats(ts: seq<Track>) {
    forall i, j :: 0 <= i < j < |ts| ==> ts[i] != ts[j]
  }

  lemma CloseOne(s: State, t: Track, u: Track)
    ensures var r := CloseAtReconnect(s, t);
            && (if u == t then r.Get(u).frames == [] && r.Get(u).pending.None? else r.Get(u) == s.Get(u))
            && r.failures == s.failures + (if StageOf(s.Get(t)).Unclosed? then [OpenAtReconnect(t)] else [])
            && (r.reports != [] <==> s.reports != [] || s.Get(t).pending.Some?)
    ensures var r := CloseAtEnd(s, t);
            && (u != t ==> r.Get(u) == s.Get(u))
            && r.failures == s.failures + (if StageOf(s.Get(t)).Unclosed? then [OpenAtEnd(t)] else [])
            && (r.reports != [] <==> s.reports != [] || s.Get(t).pending.Some?)
  {
  }

  /** Closing a list of tracks touches only those. */
  lemma {:induction false} CloseAllTracks(s: State, ts: seq<Track>, u: Track)
    ensures var r := CloseAllAtReconnect(s, ts);
            if u in ts then r.Get(u).frames == [] && r.Get(u).pending.None? else r.Get(u) == s.Get(u)
    ensures u !in ts ==> CloseAllAtEnd(s, ts).Get(u) == s.Get(u)
  {
    if ts != [] {
      hide CloseAtReconnect, CloseAtEnd;
      var front, last := ts[..|ts| - 1], ts[|ts| - 1];
      assert ts == front + [last];
      CloseAllTracks(s, front, u);
      CloseOne(CloseAllAtReconnect(s, front), last, u);
      CloseOne(CloseAllAtEnd(s, front), last, u);
    }
  }

  ghost predicate AnyPending(s: State, ts: seq<Track>) {
    exists i :: 0 <= i < |ts| && s.Get(ts[i]).pending.Some?
  }

  lemma AnyPendingMore(s: State, ts: seq<Track>, t: Track)
    ensures AnyPending(s, ts + [t]) <==> AnyPending(s, ts) || s.Get(t).pending.Some?
  {
    var all := ts + [t];
    assert all[|ts|] == t;
    if AnyPending(s, ts) {
      var i :| 0 <= i < |ts| && s.Get(ts[i]).pending.Some?;
      assert all[i] == ts[i];
    }
  }

  /** What closing a list of tracks at a reconnection reports. */
  lemma {:induction false} CloseAllReports(s: State, ts: seq<Track>)
    requires NoRepeats(ts)
    ensures var r := CloseAllAtReconnect(s, ts);
            && r.failures == s.failures + AtReconnect(UnclosedOf(s, ts))
            && (r.reports != [] <==> s.reports != [] || AnyPending(s, ts))
  {
    if ts != [] {
      hide CloseAtReconnect, AnyPending;
      var front, last := ts[..|ts| - 1], ts[|ts| - 1];
      assert last !in front && ts == front + [last];
      CloseAllReports(s, front);
      CloseAllTracks(s, front, last);
      CloseOne(CloseAllAtReconnect(s, front), last, last);
      AnyPendingMore(s, front, last);
      var open := UnclosedOf(s, front);
      assert AtReconnect(open + [last]) == AtReconnect(open) + [OpenAtReconnect(last)];
      assert open + [] == open;
    }
  }

  /** What closing a list of tracks at the end reports. */
  lemma {:induction false} EndAllReports(s: State, ts: seq<Track>)
    requires NoRepeats(ts)
    ensures var r := CloseAllAtEnd(s, ts);
            && r.failures == s.failures + AtEnd(UnclosedOf(s, ts))
            && (r.reports != [] <==> s.reports != [] || AnyPending(s, ts))
  {
    if ts != [] {
      hide CloseAtEnd, AnyPending;
      var front, last := ts[..|ts| - 1], ts[|ts| - 1];
      assert last !in front && ts == front + [last];
      EndAllReports(s, front);
      CloseAllTracks(s, front, last);
      CloseOne(CloseAllAtEnd(s, front), last, last);
      AnyPendingMore(s, front, last);
      var open := UnclosedOf(s, front);
      assert AtEnd(open + [last]) == AtEnd(open) + [OpenAtEnd(last)];
      assert open + [] == open;
    }
  }

  /** If a set of tracks holds all that are pending, its order shows whether any is. */
  lemma PendingListed(s: State)
    ensures s.reports != [] || AnyPending(s, InOrder(s.tracks.Keys)) <==> Reported(s)
  {
    hide TracksBelow, InOrder;
    OrderExact(s.tracks.Keys);
    var ts := InOrder(s.tracks.Keys);
    if t :| s.Get(t).pending.Some? {
      assert t in ts;
      var i :| 0 <= i < |ts| && ts[i] == t;
    }
  }

  /** The tracks of a set in order: exactly its members, by increasing rank. */
  lemma {:induction false} BelowExact(tracks: set<Track>, rank: nat)
    requires rank <= TRACKS
    ensures var ts := TracksBelow(tracks, rank);
            && (forall t :: t in ts <==> t in tracks && t.Rank() < rank)
            && (forall i, j :: 0 <= i < j < |ts| ==> ts[i].Rank() < ts[j].Rank())
  {
    if rank != 0 {
      BelowExact(tracks, rank - 1);
      var front, last := TracksBelow(tracks, rank - 1), TrackAt(rank - 1);
      forall t: Track ensures t.Rank() == rank - 1 <==> t == last {
        RankInjective(t);
      }
      forall i | 0 <= i < |front| ensures front[i].Rank() < rank - 1 {
        assert front[i] in front;
      }
    }
  }

  lemma OrderExact(tracks: set<Track>)
    ensures NoRepeats(InOrder(tracks)) && forall t :: t in InOrder(tracks) <==> t in tracks
    ensures forall i, j :: 0 <= i < j < |InOrder(tracks)| ==> InOrder(tracks)[i].Rank() < InOrder(tracks)[j].Rank()
  {
    hide TracksBelow;
    BelowExact(tracks, TRACKS);
    var ts := InOrder(tracks);
    forall t: Track ensures t in ts <==> t in tracks {
      assert t.Rank() < TRACKS;
    }
    forall i, j | 0 <= i < j < |ts| ensures ts[i] != ts[j] {
      assert ts[i].Rank() < ts[j].Rank();
    }
  }

  lemma {:induction false} UnclosedAgree(es: seq<Event>, n: nat, s: State, rank: nat)
    requires n <= |es| < TWO64 - 1 && rank <= TRACKS && forall t :: StageOf(s.Get(t)) == StageAt(es, n, t)
    ensures UnclosedOf(s, TracksBelow(s.tracks.Keys, rank)) == UnclosedBelow(es, n, rank)
  {
    hide StageAt;
    if rank != 0 {
      UnclosedAgree(es, n, s, rank - 1);
      var front, last := TracksBelow(s.tracks.Keys, rank - 1), TrackAt(rank - 1);
      assert StageOf(s.Get(last)) == StageAt(es, n, last);
      if last in s.tracks {
        assert (front + [last])[..|front|] == front;
      } else {
        assert front + [] == front;
      }
    }
  }

  /** After a reconnection every track starts anew. */
  lemma ReconnectIdle(s: State, u: Track)
    ensures Reconnected(s).Get(u).frames == [] && Reconnected(s).Get(u).pending.None?
  {
    hide CloseAllAtReconnect, InOrder;
    OrderExact(s.tracks.Keys);
    CloseAllTracks(s, InOrder(s.tracks.Keys), u);
  }

  lemma ReconnectReports(es: seq<Event>, n: nat, s: State)
    requires n < |es| < TWO64 - 1 && forall t :: StageOf(s.Get(t)) == StageAt(es, n, t)
    ensures Reconnected(s).failures == s.failures + AtReconnect(UnclosedBelow(es, n, TRACKS))
    ensures Reported(Reconnected(s)) <==> Reported(s)
  {
    hide CloseAllAtReconnect, InOrder, UnclosedOf, UnclosedBelow, AnyPending, Reported, StageAt;
    var ts, r := InOrder(s.tracks.Keys), Reconnected(s);
    OrderExact(s.tracks.Keys);
    AllUnclosedAgree(es, n, s);
    CloseAllReports(s, ts);
    PendingListed(s);
    forall u ensures r.Get(u).pending.None? {
      ReconnectIdle(s, u);
    }
    ReportedIdle(r);
  }

  lemma ReconnectKept(env: Env, es: seq<Event>, n: nat, s0: State, s: State)
    requires n < |es| < TWO64 - 1 && es[n].Reconnect? && FailureInv(es, n, s0, s)
    ensures FailureInv(es, n + 1, s0, Reconnected(s))
  {
    hide SomethingClosed, Reconnected, UnclosedBelow, Reported, StageAt, AllRaised, Raised, AtReconnect;
    ReconnectReports(es, n, s);
    SomethingClosedStep(es, n);
    RaisedAtReconnect(es, n, s0);
    var later := n + 1;
    forall u ensures StageOf(Reconnected(s).Get(u)) == StageAt(es, later, u) {
      ReconnectIdle(s, u);
      EmptyAtReconnect(es, n, u);
    }
  }

  lemma EmptyAtReconnect(es: seq<Event>, n: nat, t: Track)
    requires n < |es| < TWO64 - 1 && es[n].Reconnect?
    ensures StageAt(es, n + 1, t) == Empty
  {
  }

  lemma RaisedAtReconnect(es: seq<Event>, n: nat, s0: State)
    requires n < |es| < TWO64 - 1 && es[n].Reconnect?
    ensures s0.failures + AllRaised(es, n) + AtReconnect(UnclosedBelow(es, n, TRACKS)) == s0.failures + AllRaised(es, n + 1)
  {
    hide UnclosedBelow, AtReconnect;
  }

  lemma AllUnclosedAgree(es: seq<Event>, n: nat, s: State)
    requires n <= |es| < TWO64 - 1 && forall t :: StageOf(s.Get(t)) == StageAt(es, n, t)
    ensures UnclosedOf(s, InOrder(s.tracks.Keys)) == UnclosedBelow(es, n, TRACKS)
  {
    hide UnclosedOf, UnclosedBelow, TracksBelow, StageAt;
    UnclosedAgree(es, n, s, TRACKS);
  }

  lemma ReportedIdle(s: State)
    requires forall u :: s.Get(u).pending.None?
    ensures Reported(s) <==> s.reports != []
  {
  }

  // ---- Runs -----------------------------------------------------------------------------------------------

  lemma FailureStep(env: Env, es: seq<Event>, n: nat, s0: State, s: State)
    requires n < |es| < TWO64 - 1 && ClockInv(env, es, n, s) && FailureInv(es, n, s0, s) && Step(env, s, es[n]).Ok?
    ensures FailureInv(es, n + 1, s0, Step(env, s, es[n]).value)
  {
    var e := es[n];
    if e.Frame? {
      FrameKept(env, es, n, s0, s);
    } else if e.IsManifest() {
      ManifestKept(env, es, n, s0, s);
    } else if e.IsSegmentInfo() {
      SegmentInfoKept(env, es, n, s0, s);
    } else if e.Reconnect? {
      hide FailureInv, Reconnected;
      ReconnectKept(env, es, n, s0, s);
    } else {
      QuietKept(env, es, n, s0, s);
    }
  }

  lemma {:induction false} FailuresKept(env: Env, s0: State, es: seq<Event>, n: nat)
    requires n <= |es| < TWO64 - 1 && s0.(failures := []) == START && HRun(env, s0, es, n).Some?
    ensures FailureInv(es, n, s0, HRun(env, s0, es, n).value.0)
  {
    hide Step, HStep, ClockInv;
    if n == 0 {
      assert s0.failures + [] == s0.failures;
    } else {
      hide FailureInv;
      FailuresKept(env, s0, es, n - 1);
      InvHolds(env, s0, es, n - 1);
      FailureStep(env, es, n - 1, s0, HRun(env, s0, es, n - 1).value.0);
    }
  }

  /** Both ends announced capability bit 4 and the connection uses AMF3. */
  predicate BothAgreed(input: Input) {
    input.clientCaps / 16 % 2 == 1 && input.serverCaps / 16 % 2 == 1 && input.objectEncoding == 3
  }

  /** The failures the verdict of an input must list. */
  ghost function Expected(input: Input): seq<Failure>
    requires |input.events| < TWO64 - 1
  {
    var es, n := input.events, |input.events|;
    (if BothAgreed(input) then [] else [NotNegotiated]) + AllRaised(es, n) + AtEnd(UnclosedBelow(es, n, TRACKS)) +
    (if SomethingClosed(es, n) then [] else [NoSegment])
  }

  lemma EndedFailures(es: seq<Event>, s0: State, s: State)
    requires |es| < TWO64 - 1 && FailureInv(es, |es|, s0, s)
    ensures Ended(s).failures ==
            s0.failures + AllRaised(es, |es|) + AtEnd(UnclosedBelow(es, |es|, TRACKS)) + if SomethingClosed(es, |es|) then [] else [NoSegment]
  {
    hide CloseAllAtEnd, TracksBelow, InOrder, UnclosedOf, UnclosedBelow, AllRaised, SomethingClosed, StageAt, AnyPending, Reported;
    var ts := InOrder(s.tracks.Keys);
    OrderExact(s.tracks.Keys);
    AllUnclosedAgree(es, |es|, s);
    EndAllReports(s, ts);
    PendingListed(s);
  }

  /** In every run the failures are exactly those, in that order. */
  lemma FailuresExact(env: Env, input: Input)
    requires Verify(env, input).Ok?
    ensures |input.events| < TWO64 - 1 && Verify(env, input).value.failures == Expected(input)
  {
    hide HRun, Run, Ended, FailureInv, AllRaised, UnclosedBelow, SomethingClosed;
    var es, n, s0 := input.events, |input.events|, Begun(input);
    HRunIsRun(env, s0, es, n);
    assert es[..n] == es;
    FailuresKept(env, s0, es, n);
    EndedFailures(es, s0, Run(env, s0, es).value);
  }

  // ---- A clean input ------------------------------------------------------------------------------------------

  /** The event is in order: a frame is within range, after a manifest delivered for the configurations in force, on the chunk
      stream its track was configured on; a manifest is on that chunk stream too; a SegmentInfo has frames to close; at a
      reconnection no frames are left that nobody tried to close. */
  ghost predicate Clean(es: seq<Event>, n: nat)
    requires n < |es| < TWO64 - 1
  {
    var e := es[n];
    && (e.Frame? ==>
          && -0x80_0000 <= e.offset < 0x80_0000 && ManifestFresh(es, n)
          && e.track in ConfigsOf(es, n) && ConfigsOf(es, n)[e.track].csid == e.csid)
    && (e.IsManifest() && e.track in ConfigsOf(es, n) ==> ConfigsOf(es, n)[e.track].csid == e.csid)
    && (e.IsSegmentInfo() ==> !StageAt(es, n, e.track).Empty?)
    && (e.Reconnect? ==> AllTried(es, n))
  }

  /** No track has frames that nobody tried to close. */
  ghost predicate AllTried(es: seq<Event>, n: nat)
    requires n <= |es| < TWO64 - 1
  {
    forall t :: !StageAt(es, n, t).Unclosed?
  }

  lemma {:induction false} NoneUnclosed(es: seq<Event>, n: nat, rank: nat)
    requires n <= |es| < TWO64 - 1 && rank <= TRACKS
    ensures UnclosedBelow(es, n, rank) == [] <==> forall t: Track :: t.Rank() < rank ==> !StageAt(es, n, t).Unclosed?
  {
    hide StageAt;
    if rank != 0 {
      NoneUnclosed(es, n, rank - 1);
      var last := TrackAt(rank - 1);
      forall t: Track ensures t.Rank() == rank - 1 <==> t == last {
        RankInjective(t);
      }
    }
  }

  /** Every track has a rank below the number of tracks. */
  lemma AllRanked(es: seq<Event>, n: nat)
    requires n <= |es| < TWO64 - 1
    ensures (forall t: Track :: t.Rank() < TRACKS ==> !StageAt(es, n, t).Unclosed?) <==> AllTried(es, n)
  {
    hide StageAt;
    if forall t: Track :: t.Rank() < TRACKS ==> !StageAt(es, n, t).Unclosed? {
      forall t: Track ensures !StageAt(es, n, t).Unclosed? {
        assert t.Rank() < TRACKS;
      }
    }
  }

  lemma CleanRaisesNothing(es: seq<Event>, n: nat)
    requires n < |es| < TWO64 - 1
    ensures Raised(es, n) == [] <==> Clean(es, n)
  {
    hide ConfigsOf, ManifestFresh, UnclosedBelow;
    if es[n].Reconnect? {
      NoneUnclosed(es, n, TRACKS);
      AllRanked(es, n);
      assert |Raised(es, n)| == |UnclosedBelow(es, n, TRACKS)|;
      assert Raised(es, n) == [] <==> UnclosedBelow(es, n, TRACKS) == [];
    } else if es[n].Frame? {
      var e := es[n];
      if -0x80_0000 <= e.offset < 0x80_0000 {
        var first: seq<Failure> := if ManifestFresh(es, n) then [] else [FrameBeforeManifest];
        var second: seq<Failure> := if e.track !in ConfigsOf(es, n) then [FrameBeforeConfig(e.track)]
          else if ConfigsOf(es, n)[e.track].csid != e.csid then [FrameChunkStream(e.track)] else [];
        assert Raised(es, n) == first + second;
        assert first + second == [] <==> first == [] && second == [];
      }
    }
  }

  lemma {:induction false} CleanRaiseNothing(es: seq<Event>, n: nat)
    requires n <= |es| < TWO64 - 1
    ensures AllRaised(es, n) == [] <==> forall i :: 0 <= i < n ==> Clean(es, i)
  {
    hide Clean, Raised;
    if n != 0 {
      CleanRaiseNothing(es, n - 1);
      CleanRaisesNothing(es, n - 1);
    }
  }

  /** In every run: the verdict lists no failure exactly if both ends negotiated, every event is in order, no frames are left
      at the end that nobody tried to close, and something was closed. */
  lemma NoFailureExactly(env: Env, input: Input)
    requires Verify(env, input).Ok?
    ensures |input.events| < TWO64 - 1
    ensures Verify(env, input).value.failures == [] <==>
            && BothAgreed(input)
            && (forall i :: 0 <= i < |input.events| ==> Clean(input.events, i))
            && AllTried(input.events, |input.events|)
            && SomethingClosed(input.events, |input.events|)
  {
    hide Verify, Clean, AllTried, SomethingClosed, AllRaised, UnclosedBelow;
    FailuresExact(env, input);
    var es, n := input.events, |input.events|;
    CleanRaiseNothing(es, n);
    NoneUnclosed(es, n, TRACKS);
    AllRanked(es, n);
    assert AtEnd(UnclosedBelow(es, n, TRACKS)) == [] <==> UnclosedBelow(es, n, TRACKS) == [];
  }
}
