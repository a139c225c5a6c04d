/** Runs instrumented with the events behind every open frame, every closed segment and every acceptance. */
module ErtmpHistory {
  import opened Octets
  import opened ErtmpTypes
  import opened ErtmpSegmentInfo
  import opened ErtmpVerifier
  import opened ErtmpTimeline

  /** The SegmentInfo event that was accepted, and when its manifest was validated. */
  datatype Acceptance = Acceptance(at: nat, boundAt: nat)

  /** One closed segment: the frame events it covers and what accepted it. */
  datatype Closure = Closure(track: Track, frames: seq<nat>, acceptance: Option<Acceptance>)

  datatype History = History(
    open: map<Track, seq<nat>>,
    accepted: map<Track, Acceptance>,
    closures: seq<Closure>,
    boundAt: nat)
  {
    function Open(t: Track): seq<nat> {
      if t in open then open[t] else []
    }

    function AcceptedOn(t: Track): Option<Acceptance> {
      if t in accepted then Some(accepted[t]) else None
    }
  }

  const NOTHING := History(map[], map[], [], 0)

  // ---- History alongside each step ----------------------------------------------

  function HFinalize(s: State, h: History, t: Track): History {
    if s.Get(t).pending.None? then h
    else
      var acceptance := if s.Get(t).pending.value.accepted.Some? then h.AcceptedOn(t) else None;
      h.(closures := h.closures + [Closure(t, h.Open(t), acceptance)], open := h.open[t := []])
  }

  function HCloseAtReconnect(s: State, h: History, t: Track): History {
    var h1 := HFinalize(s, h, t);
    h1.(open := h1.open[t := []])
  }

  function HCloseAllAtReconnect(s: State, h: History, ts: seq<Track>): History {
    if ts == [] then h
    else
      var front := ts[..|ts| - 1];
      HCloseAtReconnect(CloseAllAtReconnect(s, front), HCloseAllAtReconnect(s, h, front), ts[|ts| - 1])
  }

  function HCloseAllAtEnd(s: State, h: History, ts: seq<Track>): History {
    if ts == [] then h
    else
      var front := ts[..|ts| - 1];
      HFinalize(CloseAllAtEnd(s, front), HCloseAllAtEnd(s, h, front), ts[|ts| - 1])
  }

  function HFrame(s: State, h: History, t: Track, offset: int, now: nat): History {
    var h1 := HFinalize(s, h, t);
    if Recorded(s, t, offset) then h1.(open := h1.open[t := h1.Open(t) + [now]]) else h1
  }

  /** The active manifest was not yet bound and the attempt bound it. */
  predicate Binds(s: State, s': State) {
    && s.active.Some?
    && s.active.value.manifestId in s.manifests && s.manifests[s.active.value.manifestId].bound.None?
    && s.active.value.manifestId in s'.manifests && s'.manifests[s.active.value.manifestId].bound.Some?
  }

  function HSegmentInfo(env: Env, s: State, h: History, e: Event, now: nat): History
    requires e.IsSegmentInfo()
  {
    var t := e.track;
    if s.Get(t).frames == [] && s.Get(t).pending.None? then h
    else
      var s1 := WithPending(s, t, PendingOf(s, t));
      var (s2, result) := Authenticate(env, s1, t, e.csid, e.timestamp, e.value);
      var h1 := if Binds(s1, s2) then h.(boundAt := now) else h;
      if result.Ok? && PendingOf(s, t).accepted.None? then h1.(accepted := h1.accepted[t := Acceptance(now, h1.boundAt)])
      else h1
  }

  function HStep(env: Env, s: State, h: History, e: Event, now: nat): History {
    if e.Frame? then HFrame(s, h, e.track, e.offset, now)
    else if e.IsSegmentInfo() then HSegmentInfo(env, s, h, e, now)
    else if e.Reconnect? then HCloseAllAtReconnect(s, h, InOrder(s.tracks.Keys))
    else h
  }

  /** State and history after the first `n` events, when none of them is fatal. */
  function HRun(env: Env, s0: State, es: seq<Event>, n: nat): Option<(State, History)>
    requires n <= |es|
  {
    if n == 0 then Some((s0, NOTHING))
    else
      var before := HRun(env, s0, es, n - 1);
      if before.None? then None
      else
        var (s, h) := before.value;
        var after := Step(env, s, es[n - 1]);
        if after.Err? then None else Some((after.value, HStep(env, s, h, es[n - 1], n - 1)))
  }

  /** The instrumented run is the run. */
  lemma {:induction false} HRunIsRun(env: Env, s0: State, es: seq<Event>, n: nat)
    requires n <= |es|
    ensures HRun(env, s0, es, n).Some? <==> Run(env, s0, es[..n]).Ok?
    ensures HRun(env, s0, es, n).Some? ==> Run(env, s0, es[..n]) == Ok(HRun(env, s0, es, n).value.0)
  {
    hide Step, HStep;
    if n == 0 {
      assert es[..0] == [];
    } else {
      HRunIsRun(env, s0, es, n - 1);
      assert es[..n][..n - 1] == es[..n - 1];
      assert es[..n][n - 1] == es[n - 1];
    }
  }

  // ---- Shared clock: configurations, revisions, active manifest --------------------

  /** The verifier's shared state is what the event list says. */
  ghost predicate ClockInv(env: Env, es: seq<Event>, n: nat, s: State)
    requires n <= |es| < TWO64 - 1
  {
    && s.nextRevision == NumConfigs(es, n) + 1
    && s.configs == ConfigsOf(es, n)
    && s.active == ActiveOf(env, es, n)
    && (forall i :: 0 <= i < n && es[i].IsManifest() ==> env.parseManifest(es[i].value).Some?)
  }

  /** Closing tracks touches neither the clock nor manifests and keys. */
  predicate SameShared(a: State, b: State) {
    && a.configs == b.configs && a.nextRevision == b.nextRevision && a.active == b.active
    && a.manifests == b.manifests && a.keyTracks == b.keyTracks
  }

  lemma {:induction false} CloseAllKeepsShared(s: State, ts: seq<Track>)
    ensures SameShared(CloseAllAtReconnect(s, ts), s)
  {
    if ts != [] {
      CloseAllKeepsShared(s, ts[..|ts| - 1]);
    }
  }

  lemma OnFrameKeepsShared(s: State, t: Track, csid: u32, timestamp: u32, offset: int, data: seq<byte>)
    requires OnFrame(s, t, csid, timestamp, offset, data).Ok?
    ensures SameShared(OnFrame(s, t, csid, timestamp, offset, data).value, s)
  {
  }

  lemma OnSegmentInfoKeepsClock(env: Env, s: State, t: Track, csid: u32, timestamp: u32, cose: seq<byte>)
    requires OnSegmentInfo(env, s, t, csid, timestamp, cose).Ok?
    ensures var s' := OnSegmentInfo(env, s, t, csid, timestamp, cose).value;
            s'.configs == s.configs && s'.nextRevision == s.nextRevision && s'.active == s.active
  {
    hide CheckCandidate, Bind, FindKey, InitializationData;
  }

  lemma ClockStep(env: Env, es: seq<Event>, n: nat, s: State)
    requires n < |es| < TWO64 - 1 && ClockInv(env, es, n, s) && Step(env, s, es[n]).Ok?
    ensures ClockInv(env, es, n + 1, Step(env, s, es[n]).value)
  {
    hide OnFrame, OnSegmentInfo, Reconnected;
    var e := es[n];
    if e.Frame? {
      OnFrameKeepsShared(s, e.track, e.csid, e.timestamp, e.offset, e.data);
    } else if e.IsSegmentInfo() {
      OnSegmentInfoKeepsClock(env, s, e.track, e.csid, e.timestamp, e.value);
    } else if e.Reconnect? {
      ReconnectClock(s);
    }
  }

  lemma ReconnectClock(s: State)
    ensures var c := Reconnected(s);
            && c.configs == map[] && c.nextRevision == s.nextRevision
            && c.manifests == s.manifests && c.keyTracks == s.keyTracks
            && c.active == (match s.active case None => None case Some(a) => Some(a.(sinceReconnect := false)))
  {
    hide CloseAllAtReconnect, InOrder;
    CloseAllKeepsShared(s, InOrder(s.tracks.Keys));
  }
}
