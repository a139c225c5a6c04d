/** Which inputs are refused outright: exactly those that pass a limit or deliver an unreadable manifest. */
module ErtmpFatal {
  import opened Octets
  import opened ErtmpTypes
  import opened ErtmpSegmentInfo
  import opened ErtmpVerifier
  import opened ErtmpTimeline
  import opened ErtmpHistory
  import opened ErtmpInvariant
  import opened ErtmpFailures

  // ---- What the event list says ------------------------------------------------------------

  /** Frames in the segment of a track that is being collected. */
  function FramesAt(es: seq<Event>, n: nat, t: Track): nat
    requires n <= |es| < TWO64 - 1
  {
    if n == 0 || es[n - 1].Reconnect? then 0
    else
      var kept := FramesAt(es, n - 1, t);
      if !es[n - 1].IsFrameOn(t) then kept
      else (if StageAt(es, n - 1, t).Attempted? then 0 else kept) + if Counts(es, n - 1) then 1 else 0
  }

  /** Attempts made to close that segment. */
  function TriesAt(es: seq<Event>, n: nat, t: Track): nat
    requires n <= |es| < TWO64 - 1
  {
    if n == 0 || es[n - 1].Reconnect? || es[n - 1].IsFrameOn(t) then 0
    else if es[n - 1].IsSegmentInfo() && es[n - 1].track == t && !StageAt(es, n - 1, t).Empty? then TriesAt(es, n - 1, t) + 1
    else TriesAt(es, n - 1, t)
  }

  /** The event cannot be taken: one track too many, one frame too many in a segment, an unreadable manifest, or one attempt too
      many to close a segment. */
  ghost predicate FatalAt(env: Env, es: seq<Event>, n: nat)
    requires n < |es| < TWO64 - 1
  {
    var e := es[n];
    || (e.CodecConfig? && e.track !in ConfigsOf(es, n) && |ConfigsOf(es, n)| >= 256)
    || (e.Frame? && Counts(es, n) && !StageAt(es, n, e.track).Attempted? && FramesAt(es, n, e.track) >= 1_000_000)
    || (e.IsManifest() && env.parseManifest(e.value).None?)
    || (e.IsSegmentInfo() && !StageAt(es, n, e.track).Empty? && TriesAt(es, n, e.track) >= 64)
  }

  // ---- The state agrees -------------------------------------------------------------------------

  function TriesOf(st: TrackState): nat {
    if st.pending.Some? then st.pending.value.candidates else 0
  }

  ghost predicate CountInv(es: seq<Event>, n: nat, s: State)
    requires n <= |es| < TWO64 - 1
  {
    forall t :: Counted(es, n, s, t)
  }

  ghost predicate Counted(es: seq<Event>, n: nat, s: State, t: Track)
    requires n <= |es| < TWO64 - 1
  {
    |s.Get(t).frames| == FramesAt(es, n, t) && TriesOf(s.Get(t)) == TriesAt(es, n, t)
  }

  lemma FrameCounts(env: Env, es: seq<Event>, n: nat, s: State, u: Track)
    requires n < |es| < TWO64 - 1 && es[n].Frame? && ClockInv(env, es, n, s) && Counted(es, n, s, u)
    requires StageOf(s.Get(u)) == StageAt(es, n, u) && Step(env, s, es[n]).Ok?
    ensures Counted(es, n + 1, Step(env, s, es[n]).value, u)
  {
    hide StageAt, FrameFailures, ActiveOf, ConfigsOf, NumConfigs;
    var e, f := es[n], FinalizePending(s, es[n].track);
    assert f.configs == s.configs && (u != e.track ==> f.Get(u) == s.Get(u));
    assert Recorded(f, e.track, e.offset) <==> Counts(es, n);
  }

  lemma SegmentInfoCounts(env: Env, es: seq<Event>, n: nat, s: State, u: Track)
    requires n < |es| < TWO64 - 1 && es[n].IsSegmentInfo() && Counted(es, n, s, u)
    requires StageOf(s.Get(u)) == StageAt(es, n, u) && Step(env, s, es[n]).Ok?
    ensures Counted(es, n + 1, Step(env, s, es[n]).value, u)
  {
    hide StageAt, Authenticate;
    var e, t := es[n], es[n].track;
    SegmentInfoStep(env, s, e, u);
    if u == t && !StageOf(s.Get(t)).Empty? {
      AttemptEffect(env, WithPending(s, t, PendingOf(s, t)), t, e.csid, e.timestamp, e.value);
    }
  }

  lemma OtherCounts(env: Env, es: seq<Event>, n: nat, s: State, u: Track)
    requires n < |es| < TWO64 - 1 && !es[n].Frame? && !es[n].IsSegmentInfo() && Counted(es, n, s, u) && Step(env, s, es[n]).Ok?
    ensures Counted(es, n + 1, Step(env, s, es[n]).value, u)
  {
    hide Reconnected;
    if es[n].Reconnect? {
      ReconnectIdle(s, u);
    } else {
      assert Step(env, s, es[n]).value.tracks == s.tracks;
    }
  }

  lemma CountStep(env: Env, es: seq<Event>, n: nat, s0: State, s: State)
    requires n < |es| < TWO64 - 1 && ClockInv(env, es, n, s) && FailureInv(es, n, s0, s) && CountInv(es, n, s) && Step(env, s, es[n]).Ok?
    ensures CountInv(es, n + 1, Step(env, s, es[n]).value)
  {
    hide Step, ClockInv, Counted, AllRaised, SomethingClosed, Reported;
    var later, s' := n + 1, Step(env, s, es[n]).value;
    forall u ensures Counted(es, later, s', u) {
      assert Counted(es, n, s, u) && StageOf(s.Get(u)) == StageAt(es, n, u);
      if es[n].Frame? {
        FrameCounts(env, es, n, s, u);
      } else if es[n].IsSegmentInfo() {
        SegmentInfoCounts(env, es, n, s, u);
      } else {
        OtherCounts(env, es, n, s, u);
      }
    }
  }

  lemma {:induction false} CountsKept(env: Env, s0: State, es: seq<Event>, n: nat)
    requires n <= |es| < TWO64 - 1 && s0.(failures := []) == START && HRun(env, s0, es, n).Some?
    ensures CountInv(es, n, HRun(env, s0, es, n).value.0)
  {
    hide Step, HStep, ClockInv, FailureInv;
    if n != 0 {
      hide CountInv;
      CountsKept(env, s0, es, n - 1);
      FailuresKept(env, s0, es, n - 1);
      InvHolds(env, s0, es, n - 1);
      CountStep(env, es, n - 1, s0, HRun(env, s0, es, n - 1).value.0);
    }
  }

  /** At a state that agrees with the event list, the event is refused exactly if it is fatal. */
  lemma StepFatal(env: Env, es: seq<Event>, n: nat, s0: State, s: State)
    requires n < |es| < TWO64 - 1 && ClockInv(env, es, n, s) && FailureInv(es, n, s0, s) && CountInv(es, n, s)
    ensures Step(env, s, es[n]).Err? <==> FatalAt(env, es, n)
  {
    hide Authenticate, FrameFailures, ActiveOf, ConfigsOf, NumConfigs, StageAt, FramesAt, TriesAt, AllRaised, SomethingClosed, Reported, Reconnected;
    var e := es[n];
    if e.Frame? || e.Metadata? {
      assert Counted(es, n, s, e.track) && StageOf(s.Get(e.track)) == StageAt(es, n, e.track);
    }
    if e.Frame? {
      assert FinalizePending(s, e.track).configs == s.configs;
      assert Recorded(FinalizePending(s, e.track), e.track, e.offset) <==> Counts(es, n);
    }
  }

  lemma {:induction false} RunFatalExactly(env: Env, s0: State, es: seq<Event>, n: nat)
    requires n <= |es| < TWO64 - 1 && s0.(failures := []) == START
    ensures HRun(env, s0, es, n).Some? <==> forall i :: 0 <= i < n ==> !FatalAt(env, es, i)
  {
    hide Step, HStep, ClockInv, FailureInv, CountInv, FatalAt;
    if n != 0 {
      RunFatalExactly(env, s0, es, n - 1);
      if HRun(env, s0, es, n - 1).Some? {
        CountsKept(env, s0, es, n - 1);
        FailuresKept(env, s0, es, n - 1);
        InvHolds(env, s0, es, n - 1);
        StepFatal(env, es, n - 1, s0, HRun(env, s0, es, n - 1).value.0);
      }
    }
  }

  /** An input gets a verdict if and only if it has at most a million events and none of them is fatal. */
  lemma VerdictExactly(env: Env, input: Input)
    ensures Verify(env, input).Ok? <==>
            |input.events| <= 1_000_000 && forall i :: 0 <= i < |input.events| ==> !FatalAt(env, input.events, i)
  {
    hide Run, HRun, FatalAt, Ended, VerdictOf;
    var es, n, s0 := input.events, |input.events|, Begun(input);
    if n <= 1_000_000 {
      HRunIsRun(env, s0, es, n);
      assert es[..n] == es;
      RunFatalExactly(env, s0, es, n);
    }
  }
}
