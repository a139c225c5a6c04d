/** What the verdict means. */
module ErtmpVerdict {
  import opened Octets
  import opened ErtmpTypes
  import opened ErtmpVerifier

  /** A delivered manifest is reported only if it validated. */
  predicate Sound(manifests: map<ManifestId, Delivery>) {
    forall id :: id in manifests && manifests[id].report.Some? ==>
      manifests[id].report.value.integrityValid && manifests[id].report.value.bindingMatches
  }

  lemma FinalizeManifests(s: State, t: Track)
    ensures FinalizePending(s, t).manifests == s.manifests
  {
  }

  lemma {:induction false} ReconnectManifests(s: State, ts: seq<Track>)
    ensures CloseAllAtReconnect(s, ts).manifests == s.manifests
  {
    if ts != [] {
      ReconnectManifests(s, ts[..|ts| - 1]);
    }
  }

  lemma {:induction false} EndManifests(s: State, ts: seq<Track>)
    ensures CloseAllAtEnd(s, ts).manifests == s.manifests
  {
    if ts != [] {
      EndManifests(s, ts[..|ts| - 1]);
    }
  }

  lemma AuthenticateSound(env: Env, s: State, t: Track, csid: u32, timestamp: u32, cose: seq<byte>)
    requires Sound(s.manifests)
    ensures Sound(Authenticate(env, s, t, csid, timestamp, cose).0.manifests)
  {
    hide CheckCandidate, FindKey, InitializationData;
  }

  lemma StepSound(env: Env, s: State, e: Event)
    requires Sound(s.manifests) && Step(env, s, e).Ok?
    ensures Sound(Step(env, s, e).value.manifests)
  {
    hide Authenticate, InOrder, CloseAllAtReconnect;
    match e
    case CodecConfig(_, _, _) =>
    case Frame(t, _, _, _, _) => FinalizeManifests(s, t);
    case Metadata(t, csid, timestamp, name, value) =>
      if name.C2paSegmentInfo? {
        AuthenticateSound(env, WithPending(s, t, PendingOf(s, t)), t, csid, timestamp, value);
      }
    case Reconnect => ReconnectManifests(s, InOrder(s.tracks.Keys));
  }

  lemma {:induction false} RunSound(env: Env, s: State, es: seq<Event>)
    requires Sound(s.manifests) && Run(env, s, es).Ok?
    ensures Sound(Run(env, s, es).value.manifests)
  {
    hide Step;
    if es != [] {
      RunSound(env, s, es[..|es| - 1]);
      StepSound(env, Run(env, s, es[..|es| - 1]).value, es[|es| - 1]);
    }
  }

  /** The manifest clause of the verdict never decides: every listed manifest was valid and bound to its content, so the
      verdict is valid exactly when nothing failed and every closed segment was accepted. */
  lemma VerdictMeaning(env: Env, input: Input)
    requires Verify(env, input).Ok?
    ensures var v := Verify(env, input).value;
            && (v.valid <==> v.failures == [] && forall i :: 0 <= i < |v.segments| ==> v.segments[i].Valid())
            && (forall id :: id in v.manifests ==> v.manifests[id].integrityValid && v.manifests[id].bindingMatches)
            && (v.valid ==> input.Negotiated() && v.segments != [])
  {
    hide Step;
    RunSound(env, Begun(input), input.events);
    var s := Run(env, Begun(input), input.events).value;
    EndManifests(s, InOrder(s.tracks.Keys));
    if !input.Negotiated() {
      StartFailure(env, input);
    }
    EndFailures(s, InOrder(s.tracks.Keys));
    hide Run, CloseAllAtEnd, InOrder;
  }

  lemma {:induction false} EndFailures(s: State, ts: seq<Track>)
    ensures s.failures <= CloseAllAtEnd(s, ts).failures
  {
    if ts != [] {
      EndFailures(s, ts[..|ts| - 1]);
    }
  }

  lemma {:induction false} ReconnectFailures(s: State, ts: seq<Track>)
    ensures s.failures <= CloseAllAtReconnect(s, ts).failures
  {
    if ts != [] {
      ReconnectFailures(s, ts[..|ts| - 1]);
    }
  }

  lemma AuthenticateFailures(env: Env, s: State, t: Track, csid: u32, timestamp: u32, cose: seq<byte>)
    ensures Authenticate(env, s, t, csid, timestamp, cose).0.failures == s.failures
  {
    hide CheckCandidate, Bind, FindKey;
  }

  /** No event takes a failure back. */
  lemma StepFailures(env: Env, s: State, e: Event)
    requires Step(env, s, e).Ok?
    ensures s.failures <= Step(env, s, e).value.failures
  {
    hide Authenticate, InOrder, CloseAllAtReconnect;
    match e
    case CodecConfig(_, _, _) =>
    case Frame(t, _, _, _, _) =>
    case Metadata(t, csid, timestamp, name, value) =>
      if name.C2paSegmentInfo? {
        AuthenticateFailures(env, WithPending(s, t, PendingOf(s, t)), t, csid, timestamp, value);
      }
    case Reconnect => ReconnectFailures(s, InOrder(s.tracks.Keys));
  }

  lemma {:induction false} RunFailures(env: Env, s: State, es: seq<Event>)
    requires Run(env, s, es).Ok?
    ensures s.failures <= Run(env, s, es).value.failures
  {
    hide Step;
    if es != [] {
      RunFailures(env, s, es[..|es| - 1]);
      StepFailures(env, Run(env, s, es[..|es| - 1]).value, es[|es| - 1]);
    }
  }

  lemma StartFailure(env: Env, input: Input)
    requires Run(env, Begun(input), input.events).Ok? && !input.Negotiated()
    ensures Run(env, Begun(input), input.events).value.failures != []
  {
    hide Run;
    RunFailures(env, Begun(input), input.events);
  }
}
