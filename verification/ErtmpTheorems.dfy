/** What a verdict means for the event list it was reached on. */
module ErtmpTheorems {
  import opened Octets
  import opened ErtmpTypes
  import opened ErtmpSegmentInfo
  import opened ErtmpVerifier
  import opened ErtmpTimeline
  import opened ErtmpHistory
  import opened ErtmpEvidence
  import opened ErtmpInvariant

  // ---- Every frame is accounted for ------------------------------------------------

  /** Frame events covered by the closed segments of a track, in closure order. */
  function Covered(closures: seq<Closure>, t: Track): seq<nat> {
    if closures == [] then []
    else
      var c := closures[|closures| - 1];
      Covered(closures[..|closures| - 1], t) + if c.track == t then c.frames else []
  }

  ghost predicate Accounted(es: seq<Event>, n: nat, h: History, t: Track)
    requires n <= |es|
  {
    Covered(h.closures, t) + h.Open(t) == FrameIndices(es, n, t)
  }

  /** Closing a segment moves its frames from open to covered. */
  lemma FinalizeAccounted(s: State, h: History, t: Track, u: Track)
    ensures var h' := HFinalize(s, h, t); Covered(h'.closures, u) + h'.Open(u) == Covered(h.closures, u) + h.Open(u)
  {
    var h' := HFinalize(s, h, t);
    if s.Get(t).pending.Some? {
      assert h'.closures[..|h'.closures| - 1] == h.closures;
    }
  }

  /** Without a failure, closing a track at a reconnection drops no frame. */
  lemma CloseAccounted(env: Env, es: seq<Event>, n: nat, s: State, h: History, t: Track, u: Track)
    requires n <= |es| < TWO64 - 1 && BodyInv(env, es, n, s, h) && CloseAtReconnect(s, t).failures == []
    ensures s.failures == []
    ensures var h' := HCloseAtReconnect(s, h, t); Covered(h'.closures, u) + h'.Open(u) == Covered(h.closures, u) + h.Open(u)
  {
    hide BodyInv, Covered, FinalizePending, HFinalize;
    FinalizeAccounted(s, h, t, u);
    FinalizeBody(env, es, n, s, h, t);
    LengthsAgree(env, es, n, FinalizePending(s, t), HFinalize(s, h, t), t);
    FinalizeKeepsFailures(s, t);
  }

  lemma LengthsAgree(env: Env, es: seq<Event>, n: nat, s: State, h: History, t: Track)
    requires n <= |es| < TWO64 - 1 && BodyInv(env, es, n, s, h)
    ensures |s.Get(t).frames| == |h.Open(t)|
  {
    assert TrackInv(env, es, n, s, h, t);
  }

  lemma FinalizeKeepsFailures(s: State, t: Track)
    ensures FinalizePending(s, t).failures == s.failures
  {
  }

  lemma {:induction false} CloseAllAccounted(env: Env, es: seq<Event>, n: nat, s: State, h: History, ts: seq<Track>, u: Track)
    requires n <= |es| < TWO64 - 1 && BodyInv(env, es, n, s, h) && CloseAllAtReconnect(s, ts).failures == []
    ensures s.failures == []
    ensures var h' := HCloseAllAtReconnect(s, h, ts); Covered(h'.closures, u) + h'.Open(u) == Covered(h.closures, u) + h.Open(u)
  {
    hide BodyInv, CloseAtReconnect, HCloseAtReconnect, Covered;
    if ts != [] {
      var front := ts[..|ts| - 1];
      CloseAllBody(env, es, n, s, h, front);
      CloseAccounted(env, es, n, CloseAllAtReconnect(s, front), HCloseAllAtReconnect(s, h, front), ts[|ts| - 1], u);
      CloseAllAccounted(env, es, n, s, h, front, u);
    }
  }

  lemma FrameAccounted(env: Env, es: seq<Event>, n: nat, s: State, h: History, u: Track)
    requires n < |es| < TWO64 - 1 && es[n].Frame? && Step(env, s, es[n]).Ok? && Step(env, s, es[n]).value.failures == []
    requires Accounted(es, n, h, u)
    ensures s.failures == [] && Accounted(es, n + 1, HStep(env, s, h, es[n], n), u)
  {
    hide HFinalize, Covered, OnFrame;
    var e, t := es[n], es[n].track;
    FinalizeAccounted(s, h, t, u);
    CleanFrameRecorded(s, e);
    var before, after := HFinalize(s, h, t), HFrame(s, h, t, e.offset, n);
    if u == t {
      assert Covered(after.closures, u) + after.Open(u) == (Covered(before.closures, u) + before.Open(u)) + [n];
    }
  }

  /** A frame that raises no failure is recorded. */
  lemma CleanFrameRecorded(s: State, e: Event)
    requires e.Frame? && OnFrame(s, e.track, e.csid, e.timestamp, e.offset, e.data).Ok?
    requires OnFrame(s, e.track, e.csid, e.timestamp, e.offset, e.data).value.failures == []
    ensures s.failures == [] && Recorded(s, e.track, e.offset)
  {
    FinalizeKeepsFailures(s, e.track);
    FinalizedHasNoPending(s, e.track);
    hide FinalizePending;
  }

  lemma AccountedStep(env: Env, es: seq<Event>, n: nat, s: State, h: History, u: Track)
    requires n < |es| < TWO64 - 1 && Inv(env, es, n, s, h) && Step(env, s, es[n]).Ok? && Step(env, s, es[n]).value.failures == []
    ensures s.failures == []
    ensures Accounted(es, n, h, u) ==> Accounted(es, n + 1, HStep(env, s, h, es[n], n), u)
  {
    var e := es[n];
    hide OnFrame, HFrame, OnSegmentInfo, HSegmentInfo, CloseAllAtReconnect, HCloseAllAtReconnect, Covered, BodyInv, ClockInv, DeliveryInv;
    if e.Frame? {
      FrameFailuresKept(s, e);
      if Accounted(es, n, h, u) { FrameAccounted(env, es, n, s, h, u); }
    } else if e.IsSegmentInfo() {
      SegmentInfoFailures(env, s, e);
      SegmentInfoFrame(env, s, h, e, n, u);
    } else if e.Reconnect? {
      CloseAllAccounted(env, es, n, s, h, InOrder(s.tracks.Keys), u);
    }
  }

  lemma FrameFailuresKept(s: State, e: Event)
    requires e.Frame? && OnFrame(s, e.track, e.csid, e.timestamp, e.offset, e.data).Ok?
    ensures OnFrame(s, e.track, e.csid, e.timestamp, e.offset, e.data).value.failures == [] ==> s.failures == []
  {
  }

  lemma SegmentInfoFailures(env: Env, s: State, e: Event)
    requires e.IsSegmentInfo() && Step(env, s, e).Ok?
    ensures Step(env, s, e).value.failures == [] ==> s.failures == []
  {
    hide Authenticate;
    AttemptEffect(env, WithPending(s, e.track, PendingOf(s, e.track)), e.track, e.csid, e.timestamp, e.value);
  }

  lemma {:induction false} AllAccounted(env: Env, s0: State, es: seq<Event>, n: nat, u: Track)
    requires n <= |es| < TWO64 - 1 && s0.(failures := []) == START && HRun(env, s0, es, n).Some?
    requires HRun(env, s0, es, n).value.0.failures == []
    ensures Accounted(es, n, HRun(env, s0, es, n).value.1, u)
  {
    if n != 0 {
      hide Step, HStep, Inv, Accounted;
      var before := HRun(env, s0, es, n - 1).value;
      InvHolds(env, s0, es, n - 1);
      AccountedStep(env, es, n - 1, before.0, before.1, u);
      AllAccounted(env, s0, es, n - 1, u);
    }
  }

  // ---- The end of the input ------------------------------------------------------------

  lemma EndBody(env: Env, es: seq<Event>, n: nat, s: State, h: History, t: Track)
    requires n <= |es| < TWO64 - 1 && BodyInv(env, es, n, s, h)
    ensures BodyInv(env, es, n, CloseAtEnd(s, t), HFinalize(s, h, t))
    ensures CloseAtEnd(s, t).failures == [] ==>
              && s.failures == [] && HFinalize(s, h, t).Open(t) == []
              && (forall u :: h.Open(u) == [] ==> HFinalize(s, h, t).Open(u) == [])
  {
    FinalizeBody(env, es, n, s, h, t);
    assert TrackInv(env, es, n, FinalizePending(s, t), HFinalize(s, h, t), t);
    SameBodyInv(env, es, n, FinalizePending(s, t), CloseAtEnd(s, t), HFinalize(s, h, t));
    hide BodyInv, PendingOk;
  }

  lemma {:induction false} EndAllBody(env: Env, es: seq<Event>, n: nat, s: State, h: History, ts: seq<Track>)
    requires n <= |es| < TWO64 - 1 && BodyInv(env, es, n, s, h)
    ensures BodyInv(env, es, n, CloseAllAtEnd(s, ts), HCloseAllAtEnd(s, h, ts))
  {
    hide BodyInv, CloseAtEnd, HFinalize;
    if ts != [] {
      var front := ts[..|ts| - 1];
      EndAllBody(env, es, n, s, h, front);
      EndBody(env, es, n, CloseAllAtEnd(s, front), HCloseAllAtEnd(s, h, front), ts[|ts| - 1]);
    }
  }

  /** Without a failure at the end, nothing stays open and nothing is lost. */
  lemma {:induction false} EndAllAccounted(env: Env, es: seq<Event>, n: nat, s: State, h: History, ts: seq<Track>, u: Track)
    requires n <= |es| < TWO64 - 1 && BodyInv(env, es, n, s, h) && CloseAllAtEnd(s, ts).failures == []
    ensures s.failures == []
    ensures var h' := HCloseAllAtEnd(s, h, ts);
            && Covered(h'.closures, u) + h'.Open(u) == Covered(h.closures, u) + h.Open(u)
            && (u in ts || h.Open(u) == [] ==> h'.Open(u) == [])
  {
    hide BodyInv, CloseAtEnd, HFinalize, Covered;
    if ts != [] {
      var front, last := ts[..|ts| - 1], ts[|ts| - 1];
      var s1, h1 := CloseAllAtEnd(s, front), HCloseAllAtEnd(s, h, front);
      EndAllBody(env, es, n, s, h, front);
      EndBody(env, es, n, s1, h1, last);
      EndAllAccounted(env, es, n, s, h, front, u);
      FinalizeAccounted(s1, h1, last, u);
    }
  }

  // ---- Theorems ------------------------------------------------------------------------------

  /** The segments of a completed run with the events behind them. */
  function FinalHistory(env: Env, input: Input): History {
    var n := |input.events|;
    match HRun(env, Begun(input), input.events, n)
    case None => NOTHING
    case Some((s, h)) => HCloseAllAtEnd(s, h, InOrder(s.tracks.Keys))
  }

  lemma FinalBody(env: Env, input: Input)
    requires Verify(env, input).Ok?
    ensures var s := Run(env, Begun(input), input.events);
            && |input.events| < TWO64 - 1
            && s.Ok? && HRun(env, Begun(input), input.events, |input.events|).Some?
            && s.value == HRun(env, Begun(input), input.events, |input.events|).value.0
            && BodyInv(env, input.events, |input.events|, Ended(s.value), FinalHistory(env, input))
  {
    hide Step, HStep, VerdictOf, BodyInv, ClockInv, DeliveryInv, InOrder, CloseAllAtEnd, HCloseAllAtEnd;
    var es, n := input.events, |input.events|;
    HRunIsRun(env, Begun(input), es, n);
    assert es[..n] == es;
    InvHolds(env, Begun(input), es, n);
    var (s, h) := HRun(env, Begun(input), es, n).value;
    var ts := InOrder(s.tracks.Keys);
    EndAllBody(env, es, n, s, h, ts);
    SameBodyInv(env, es, n, CloseAllAtEnd(s, ts), Ended(s), HCloseAllAtEnd(s, h, ts));
  }

  /** Every valid segment of every completed run, whatever its verdict, is backed by the event list: the named manifest was
      the last delivered, nothing reconnected or was reconfigured since, its validation covers the data in force, and the
      segment spans neither a reconnection nor a reconfiguration of its track. */
  lemma AcceptanceSafety(env: Env, input: Input)
    requires Verify(env, input).Ok?
    ensures |input.events| < TWO64 - 1
    ensures var v, h := Verify(env, input).value, FinalHistory(env, input);
            && |h.closures| == |v.segments|
            && forall i :: 0 <= i < |v.segments| ==>
                 && h.closures[i].track == v.segments[i].track
                 && (v.segments[i].Valid() <==> h.closures[i].acceptance.Some?)
                 && (v.segments[i].Valid() ==>
                       Evidence(env, input.events, v.segments[i].track, h.closures[i].frames,
                                h.closures[i].acceptance.value, v.segments[i].accepted.value))
  {
    FinalBody(env, input);
    hide Run, HRun, Ended, FinalHistory, Evidence, TrackInv, SequenceInv;
    var s, h, n := Ended(Run(env, Begun(input), input.events).value), FinalHistory(env, input), |input.events|;
    forall i | 0 <= i < |s.reports|
      ensures h.closures[i].track == s.reports[i].track
      ensures s.reports[i].Valid() <==> h.closures[i].acceptance.Some?
      ensures s.reports[i].Valid() ==>
                Evidence(env, input.events, s.reports[i].track, h.closures[i].frames,
                         h.closures[i].acceptance.value, s.reports[i].accepted.value)
    {
      assert ReportOk(env, input.events, n, s.reports[i], h.closures[i], s.keyTracks);
    }
  }

  /** A valid verdict covers every frame event of every track, each in exactly one valid segment, in order. */
  lemma NoFrameEscapes(env: Env, input: Input, t: Track)
    requires Verify(env, input).Ok? && Verify(env, input).value.valid
    ensures Covered(FinalHistory(env, input).closures, t) == FrameIndices(input.events, |input.events|, t)
    ensures Verify(env, input).value.segments != []
    ensures forall i :: 0 <= i < |Verify(env, input).value.segments| ==> Verify(env, input).value.segments[i].Valid()
  {
    FinalBody(env, input);
    hide Step, HStep, BodyInv, ClockInv, DeliveryInv, InOrder, CloseAllAtEnd, HCloseAllAtEnd, Covered;
    var es, n := input.events, |input.events|;
    var (s, h) := HRun(env, Begun(input), es, n).value;
    var ts := InOrder(s.tracks.Keys);
    InvHolds(env, Begun(input), es, n);
    EndAllAccounted(env, es, n, s, h, ts, t);
    AllAccounted(env, Begun(input), es, n, t);
    OpenTrackListed(env, es, n, s, h, t);
  }

  lemma OpenTrackListed(env: Env, es: seq<Event>, n: nat, s: State, h: History, t: Track)
    requires n <= |es| < TWO64 - 1 && BodyInv(env, es, n, s, h)
    ensures t in InOrder(s.tracks.Keys) || h.Open(t) == []
  {
    if t in s.tracks {
      InOrderComplete(s.tracks.Keys, TRACKS, t);
    } else {
      assert TrackInv(env, es, n, s, h, t);
    }
  }

  // ---- Each frame in exactly one segment ------------------------------------------------------

  lemma {:induction false} FrameIndicesIncrease(es: seq<Event>, n: nat, t: Track)
    requires n <= |es|
    ensures forall j, k :: 0 <= j < k < |FrameIndices(es, n, t)| ==> FrameIndices(es, n, t)[j] < FrameIndices(es, n, t)[k]
    ensures forall k :: 0 <= k < |FrameIndices(es, n, t)| ==> FrameIndices(es, n, t)[k] < n
    ensures forall i: nat :: i in FrameIndices(es, n, t) <==> i < n && es[i].IsFrameOn(t)
  {
    if n != 0 {
      FrameIndicesIncrease(es, n - 1, t);
    }
  }

  lemma {:induction false} CoveredBy(closures: seq<Closure>, t: Track, x: nat)
    requires x in Covered(closures, t)
    ensures exists c :: 0 <= c < |closures| && closures[c].track == t && x in closures[c].frames
  {
    var last := closures[|closures| - 1];
    if last.track == t && x in last.frames {
      assert closures[|closures| - 1].track == t;
    } else {
      var front := closures[..|closures| - 1];
      CoveredBy(front, t, x);
      var c :| 0 <= c < |front| && front[c].track == t && x in front[c].frames;
      assert closures[c] == front[c];
    }
  }

  lemma {:induction false} Covers(closures: seq<Closure>, c: nat, x: nat)
    requires c < |closures| && x in closures[c].frames
    ensures x in Covered(closures, closures[c].track)
  {
    if c < |closures| - 1 {
      Covers(closures[..|closures| - 1], c, x);
    }
  }

  lemma {:induction false} CoveredOnce(closures: seq<Closure>, t: Track, c: nat, d: nat, x: nat)
    requires c < d < |closures| && closures[c].track == t && closures[d].track == t
    requires x in closures[c].frames && x in closures[d].frames
    ensures exists j, k :: 0 <= j < k < |Covered(closures, t)| && Covered(closures, t)[j] == Covered(closures, t)[k]
  {
    var front, all := closures[..|closures| - 1], Covered(closures, t);
    if d == |closures| - 1 {
      Covers(front, c, x);
      var before := Covered(front, t);
      var j :| 0 <= j < |before| && before[j] == x;
      var k :| 0 <= k < |closures[d].frames| && closures[d].frames[k] == x;
      assert all[j] == x && all[|before| + k] == x;
    } else {
      CoveredOnce(front, t, c, d, x);
      var j, k :| 0 <= j < k < |Covered(front, t)| && Covered(front, t)[j] == Covered(front, t)[k];
      assert all[j] == all[k];
    }
  }

  /** Under a valid verdict each frame event lies in one segment and only one. */
  lemma FrameInExactlyOneSegment(env: Env, input: Input, i: nat)
    requires Verify(env, input).Ok? && Verify(env, input).value.valid
    requires i < |input.events| && input.events[i].Frame?
    ensures var cs := FinalHistory(env, input).closures;
            && (exists c :: 0 <= c < |cs| && i in cs[c].frames)
            && (forall c, d :: 0 <= c < d < |cs| ==> !(i in cs[c].frames && i in cs[d].frames))
  {
    var t := input.events[i].track;
    NoFrameEscapes(env, input, t);
    AcceptanceSafety(env, input);
    FrameIndicesIncrease(input.events, |input.events|, t);
    hide Verify, FinalHistory, FrameIndices, ManifestEvidence, KeyEvidence, EventPreimage, UntrustedSegmentInfo;
    var cs, v := FinalHistory(env, input).closures, Verify(env, input).value;
    CoveredBy(cs, t, i);
    forall c, d | 0 <= c < d < |cs| ensures !(i in cs[c].frames && i in cs[d].frames) {
      if i in cs[c].frames && i in cs[d].frames {
        assert v.segments[c].Valid() && v.segments[d].Valid();
        FramesOnOwnTrack(env, input.events, v.segments[c].track, cs[c].frames, cs[c].acceptance.value, v.segments[c].accepted.value, i);
        FramesOnOwnTrack(env, input.events, v.segments[d].track, cs[d].frames, cs[d].acceptance.value, v.segments[d].accepted.value, i);
        CoveredOnce(cs, t, c, d, i);
      }
    }
  }

  lemma FramesOnOwnTrack(env: Env, es: seq<Event>, t: Track, frames: seq<nat>, acc: Acceptance, a: Accepted, i: nat)
    requires |es| < TWO64 - 1 && Evidence(env, es, t, frames, acc, a) && i in frames
    ensures i < |es| && es[i].IsFrameOn(t)
  {
    hide ManifestEvidence, KeyEvidence, UntrustedSegmentInfo, EventPreimage;
  }

  // ---- Sequence numbers and keys --------------------------------------------------------------------

  /** Consecutive valid segments of a track, whatever lies between them, are numbered consecutively. */
  lemma {:induction false} SequenceDiscipline(reports: seq<SegmentReport>, i: nat, j: nat)
    requires Disciplined(reports) && i < j < |reports|
    requires reports[i].Valid() && reports[j].Valid() && reports[i].track == reports[j].track
    requires forall k :: i < k < j ==> !(reports[k].Valid() && reports[k].track == reports[i].track)
    ensures reports[j].accepted.value.sequence == reports[i].accepted.value.sequence + 1
  {
    var front := reports[..|reports| - 1];
    if j < |reports| - 1 {
      SequenceDiscipline(front, i, j);
    } else {
      LastSequenceIs(front, i);
    }
  }

  lemma {:induction false} LastSequenceIs(reports: seq<SegmentReport>, i: nat)
    requires i < |reports| && reports[i].Valid()
    requires forall k :: i < k < |reports| ==> !(reports[k].Valid() && reports[k].track == reports[i].track)
    ensures LastSequence(reports, reports[i].track) == Some(reports[i].accepted.value.sequence)
  {
    if i < |reports| - 1 {
      LastSequenceIs(reports[..|reports| - 1], i);
    }
  }

  /** Over every completed run: valid segments of a track increase by exactly one, and one session key serves one track. */
  lemma SequenceAndKeyDiscipline(env: Env, input: Input, i: nat, j: nat)
    requires Verify(env, input).Ok?
    requires var segments := Verify(env, input).value.segments;
             i < j < |segments| && segments[i].Valid() && segments[j].Valid()
    ensures var segments := Verify(env, input).value.segments;
            && (segments[i].accepted.value.keyId == segments[j].accepted.value.keyId ==> segments[i].track == segments[j].track)
            && (segments[i].track == segments[j].track &&
                (forall k :: i < k < j ==> !(segments[k].Valid() && segments[k].track == segments[i].track)) ==>
                  segments[j].accepted.value.sequence == segments[i].accepted.value.sequence + 1)
  {
    FinalBody(env, input);
    hide Run, HRun, Ended, FinalHistory, Evidence, TrackInv, Disciplined;
    var s, h := Ended(Run(env, Begun(input), input.events).value), FinalHistory(env, input);
    assert ReportOk(env, input.events, |input.events|, s.reports[i], h.closures[i], s.keyTracks);
    assert ReportOk(env, input.events, |input.events|, s.reports[j], h.closures[j], s.keyTracks);
    if s.reports[i].track == s.reports[j].track &&
       forall k :: i < k < j ==> !(s.reports[k].Valid() && s.reports[k].track == s.reports[i].track) {
      SequenceDiscipline(s.reports, i, j);
    }
  }
}
