/** Which manifests a verdict lists. */
module ErtmpManifests {
  import opened Octets
  import opened ErtmpTypes
  import opened ErtmpSegmentInfo
  import opened ErtmpVerifier
  import opened ErtmpTimeline
  import opened ErtmpHistory
  import opened ErtmpEvidence
  import opened ErtmpInvariant
  import opened ErtmpVerdict
  import opened ErtmpReachable
  import opened ErtmpFailures
  import opened ErtmpAttempts
  import opened ErtmpReports

  // ---- What the event list says ----------------------------------------------------------------

  /** Event `i` delivers the manifest `id`. */
  predicate Delivers(env: Env, es: seq<Event>, i: nat, id: ManifestId)
    requires i < |es|
  {
    es[i].IsManifest() && env.parseManifest(es[i].value).Some? && env.parseManifest(es[i].value).value.0 == id
  }

  /** Not delivered again from `lo` to `hi`. */
  predicate NotAgain(env: Env, es: seq<Event>, id: ManifestId, lo: nat, hi: nat)
    requires hi <= |es|
  {
    forall i :: lo <= i < hi ==> !Delivers(env, es, i, id)
  }

  /** The SegmentInfo at `k` has frames to close, and gets as far as the manifest `id` being found valid, whether or not a key of
      that vouches for it. */
  ghost predicate ReachesAt(env: Env, s0: State, es: seq<Event>, k: nat, id: ManifestId)
    requires k < |es| < TWO64 - 1
  {
    && es[k].IsSegmentInfo() && HRun(env, s0, es, k).Some? && !StageAt(es, k, es[k].track).Empty?
    && var (s, h) := HRun(env, s0, es, k).value;
       exists info: SegmentInfo :: info.manifestId == id && Reaches(env, es, k, h.Open(es[k].track), LastSequence(s.reports, es[k].track), info)
  }

  /** Some SegmentInfo found it valid, and it was not delivered again since. */
  ghost predicate ListedBy(env: Env, s0: State, es: seq<Event>, n: nat, id: ManifestId)
    requires n <= |es| < TWO64 - 1
  {
    exists k :: 0 <= k < n && ReachesAt(env, s0, es, k, id) && NotAgain(env, es, id, k, n)
  }

  // ---- The state agrees -----------------------------------------------------------------------------

  predicate Listed(s: State, id: ManifestId) {
    id in s.manifests && s.manifests[id].report.Some?
  }

  predicate BoundReported(s: State) {
    forall id :: id in s.manifests ==> (s.manifests[id].bound.Some? <==> s.manifests[id].report.Some?)
  }

  ghost predicate ListInv(env: Env, s0: State, es: seq<Event>, n: nat, s: State)
    requires n <= |es| < TWO64 - 1
  {
    BoundReported(s) && forall id :: Listed(s, id) <==> ListedBy(env, s0, es, n, id)
  }

  /** One more event. */
  lemma ListedByMore(env: Env, s0: State, es: seq<Event>, n: nat, id: ManifestId)
    requires n < |es| < TWO64 - 1
    ensures ListedBy(env, s0, es, n + 1, id) <==> !Delivers(env, es, n, id) && (ListedBy(env, s0, es, n, id) || ReachesAt(env, s0, es, n, id))
  {
    hide Delivers, ReachesAt;
    if ListedBy(env, s0, es, n + 1, id) {
      var k :| 0 <= k < n + 1 && ReachesAt(env, s0, es, k, id) && NotAgain(env, es, id, k, n + 1);
      if k < n {
        assert NotAgain(env, es, id, k, n);
      }
    }
    if !Delivers(env, es, n, id) && ListedBy(env, s0, es, n, id) {
      var k :| 0 <= k < n && ReachesAt(env, s0, es, k, id) && NotAgain(env, es, id, k, n);
      assert NotAgain(env, es, id, k, n + 1);
    }
    if !Delivers(env, es, n, id) && ReachesAt(env, s0, es, n, id) {
      assert NotAgain(env, es, id, n, n + 1);
    }
  }

  /** An event after which exactly the same manifests are listed, but for what it delivers or finds valid. */
  lemma ListStep(env: Env, s0: State, es: seq<Event>, n: nat, s: State, s': State)
    requires n < |es| < TWO64 - 1 && ListInv(env, s0, es, n, s) && BoundReported(s')
    requires forall id :: Listed(s', id) <==> !Delivers(env, es, n, id) && (Listed(s, id) || ReachesAt(env, s0, es, n, id))
    ensures ListInv(env, s0, es, n + 1, s')
  {
    hide Delivers, ReachesAt, ListedBy, Listed, BoundReported;
    var later := n + 1;
    forall id ensures Listed(s', id) <==> ListedBy(env, s0, es, later, id) {
      ListedByMore(env, s0, es, n, id);
    }
  }

  lemma SameManifests(env: Env, s0: State, es: seq<Event>, n: nat, s: State, s': State)
    requires n < |es| < TWO64 - 1 && ListInv(env, s0, es, n, s) && s'.manifests == s.manifests && !es[n].IsManifest()
    requires es[n].IsSegmentInfo() ==> StageAt(es, n, es[n].track).Empty?
    ensures ListInv(env, s0, es, n + 1, s')
  {
    hide ListedBy, StageAt;
    ListStep(env, s0, es, n, s, s');
  }

  lemma ManifestLists(env: Env, s0: State, es: seq<Event>, n: nat, s: State)
    requires n < |es| < TWO64 - 1 && ListInv(env, s0, es, n, s) && es[n].IsManifest() && Step(env, s, es[n]).Ok?
    ensures ListInv(env, s0, es, n + 1, Step(env, s, es[n]).value)
  {
    hide ListedBy;
    ListStep(env, s0, es, n, s, Step(env, s, es[n]).value);
  }

  lemma BindStore(env: Env, d: Delivery, data: seq<byte>)
    requires d.bound.Some? <==> d.report.Some?
    ensures var r := Bind(env, d, data);
            r.Ok? ==> r.value.bound.Some? && r.value.report.Some?
  {
  }

  /** What an attempt does to the manifests: the one it names is found valid, or nothing changes. */
  lemma AttemptStore(env: Env, s: State, t: Track, csid: u32, timestamp: u32, cose: seq<byte>)
    requires BoundReported(s)
    ensures var checked := CheckCandidate(env, s, t, csid, timestamp, cose);
            var found := checked.Ok? && checked.value.manifestId in s.manifests &&
                         Bind(env, s.manifests[checked.value.manifestId], InitializationData(s.configs)).Ok?;
            var s' := Authenticate(env, s, t, csid, timestamp, cose).0;
            BoundReported(s') && forall id :: Listed(s', id) <==> Listed(s, id) || (found && id == checked.value.manifestId)
  {
    hide CheckCandidate, FindKey, InitializationData, Bind;
    var checked := CheckCandidate(env, s, t, csid, timestamp, cose);
    if checked.Ok? && checked.value.manifestId in s.manifests {
      BindStore(env, s.manifests[checked.value.manifestId], InitializationData(s.configs));
    }
  }

  lemma AttemptLists(env: Env, es: seq<Event>, n: nat, s: State, h: History)
    requires n < |es| < TWO64 - 1 && es[n].IsSegmentInfo() && Ready(env, es, n, s, h, es[n].track)
    requires RevisionAgrees(s) && es[n].track in s.tracks && BoundReported(s)
    ensures var t := es[n].track;
            var s' := Authenticate(env, s, t, es[n].csid, es[n].timestamp, es[n].value).0;
            BoundReported(s') && forall id :: Listed(s', id) <==>
              Listed(s, id) || exists info: SegmentInfo :: info.manifestId == id && Reaches(env, es, n, h.Open(t), s.Get(t).lastSequence, info)
  {
    var e, t := es[n], es[n].track;
    hide Authenticate, CheckCandidate, Reaches, Bind, InitializationData, Ready, Listed, BoundReported, RevisionAgrees;
    AttemptStore(env, s, t, e.csid, e.timestamp, e.value);
    forall info ensures Reaches(env, es, n, h.Open(t), s.Get(t).lastSequence, info) <==>
      CheckCandidate(env, s, t, e.csid, e.timestamp, e.value) == Ok(info) && info.manifestId in s.manifests
      && Bind(env, s.manifests[info.manifestId], InitializationData(s.configs)).Ok?
    {
      ReachesMeans(env, es, n, s, h, info);
    }
  }

  lemma SegmentInfoLists(env: Env, s0: State, es: seq<Event>, n: nat, s: State, h: History)
    requires n < |es| < TWO64 - 1 && es[n].IsSegmentInfo() && HRun(env, s0, es, n) == Some((s, h)) && s0.(failures := []) == START
    requires ListInv(env, s0, es, n, s) && Step(env, s, es[n]).Ok? && !StageAt(es, n, es[n].track).Empty?
    requires StageOf(s.Get(es[n].track)) == StageAt(es, n, es[n].track)
    ensures ListInv(env, s0, es, n + 1, Step(env, s, es[n]).value)
  {
    hide HRun, Authenticate, RevisionAgrees, NoneDead, Reaches, StageAt, ListedBy, BoundReported, Listed, Record, LastSequence;
    InvHolds(env, s0, es, n);
    RunLive(env, s0, es, n);
    var t, s' := es[n].track, Step(env, s, es[n]).value;
    var s1 := WithPending(s, t, PendingOf(s, t));
    assert TrackInv(env, es, n, s, h, t);
    SameClock(env, es, n, s, s1);
    SameDeliveryNow(env, es, n, s, h, s1);
    SameRevisions(s, s1);
    SameListed(s, s1);
    LastKnown(env, s0, es, n);
    AttemptLists(env, es, n, s1, h);
    SameListed(Authenticate(env, s1, t, es[n].csid, es[n].timestamp, es[n].value).0, s');
    ListStep(env, s0, es, n, s, s');
  }

  /** The last number of a track is that of its last valid segment. */
  lemma LastKnown(env: Env, s0: State, es: seq<Event>, n: nat)
    requires n < |es| < TWO64 - 1 && s0.(failures := []) == START && HRun(env, s0, es, n).Some? && es[n].IsSegmentInfo()
    ensures var s := HRun(env, s0, es, n).value.0; s.Get(es[n].track).lastSequence == LastSequence(s.reports, es[n].track)
  {
    hide HRun, Authenticate, Deserves;
    EveryAttemptExact(env, s0, es, n);
  }

  lemma SameListed(a: State, b: State)
    requires a.manifests == b.manifests
    ensures (BoundReported(a) <==> BoundReported(b)) && forall id :: Listed(a, id) <==> Listed(b, id)
  {
  }

  lemma OtherManifests(env: Env, s: State, e: Event)
    requires Step(env, s, e).Ok? && !e.IsManifest() && !e.IsSegmentInfo()
    ensures Step(env, s, e).value.manifests == s.manifests
  {
    if e.Frame? {
      OnFrameKeepsShared(s, e.track, e.csid, e.timestamp, e.offset, e.data);
      hide OnFrame;
    } else if e.Reconnect? {
      ReconnectClock(s);
      hide Reconnected;
    }
  }

  lemma AnyStep(env: Env, s0: State, es: seq<Event>, n: nat, s: State, h: History)
    requires n < |es| < TWO64 - 1 && HRun(env, s0, es, n) == Some((s, h)) && s0.(failures := []) == START
    requires ListInv(env, s0, es, n, s) && Step(env, s, es[n]).Ok?
    requires forall t :: StageOf(s.Get(t)) == StageAt(es, n, t)
    ensures ListInv(env, s0, es, n + 1, Step(env, s, es[n]).value)
  {
    hide HRun, ListInv, StageAt;
    var e := es[n];
    if e.IsManifest() {
      hide Step;
      ManifestLists(env, s0, es, n, s);
    } else if e.IsSegmentInfo() {
      if StageAt(es, n, e.track).Empty? {
        hide Authenticate;
        SameManifests(env, s0, es, n, s, Step(env, s, e).value);
      } else {
        hide Step;
        SegmentInfoLists(env, s0, es, n, s, h);
      }
    } else {
      hide Step;
      OtherManifests(env, s, e);
      SameManifests(env, s0, es, n, s, Step(env, s, e).value);
    }
  }

  lemma {:induction false} ListKept(env: Env, s0: State, es: seq<Event>, n: nat)
    requires n <= |es| < TWO64 - 1 && s0.(failures := []) == START && HRun(env, s0, es, n).Some?
    ensures ListInv(env, s0, es, n, HRun(env, s0, es, n).value.0)
  {
    hide Step, HStep, StageAt, ReachesAt;
    if n != 0 {
      hide ListInv;
      ListKept(env, s0, es, n - 1);
      StagesKept(env, s0, es, n - 1);
      var (s, h) := HRun(env, s0, es, n - 1).value;
      AnyStep(env, s0, es, n - 1, s, h);
    }
  }

  /** In every run: exactly those manifests are listed that some SegmentInfo found valid and that were not delivered again since,
      and each is reported valid and bound to its content. */
  lemma ManifestsExact(env: Env, input: Input)
    requires Verify(env, input).Ok?
    ensures |input.events| < TWO64 - 1
    ensures var v := Verify(env, input).value;
            && (forall id :: id in v.manifests <==> ListedBy(env, Begun(input), input.events, |input.events|, id))
            && (forall id :: id in v.manifests ==> v.manifests[id] == Report(true, true))
  {
    hide HRun, Run, CloseAllAtEnd, InOrder, ListedBy;
    var es, n, s0 := input.events, |input.events|, Begun(input);
    HRunIsRun(env, s0, es, n);
    assert es[..n] == es;
    ListKept(env, s0, es, n);
    VerdictMeaning(env, input);
    var s := HRun(env, s0, es, n).value.0;
    EndManifests(s, InOrder(s.tracks.Keys));
    forall id ensures id in Verify(env, input).value.manifests <==> Listed(s, id) {
    }
  }
}
