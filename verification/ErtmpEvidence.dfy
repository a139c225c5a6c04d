/** What must be true of the event list when a segment is accepted, and why it is. */
module ErtmpEvidence {
  import opened Octets
  import opened ErtmpTypes
  import opened ErtmpSegmentInfo
  import opened ErtmpVerifier
  import opened ErtmpTimeline
  import opened ErtmpHistory

  // ---- Evidence over the event list ----------------------------------------------

  function FrameEventOctets(e: Event): seq<byte>
    requires e.Frame?
  {
    BigEndian(4, e.timestamp) + OffsetOctets(e.offset) + e.data
  }

  ghost predicate AllFrames(es: seq<Event>, t: Track, frames: seq<nat>, hi: nat) {
    && hi <= |es|
    && (forall k :: 0 <= k < |frames| ==> frames[k] < hi && es[frames[k]].IsFrameOn(t))
    && (forall j, k :: 0 <= j < k < |frames| ==> frames[j] < frames[k])
  }

  function EventPreimage(es: seq<Event>, frames: seq<nat>): seq<byte>
    requires forall k :: 0 <= k < |frames| ==> frames[k] < |es| && es[frames[k]].Frame?
  {
    if frames == [] then []
    else EventPreimage(es, frames[..|frames| - 1]) + FrameEventOctets(es[frames[|frames| - 1]])
  }

  /** The accepted message describes exactly these frames of its own track, on one chunk stream, ending at its timestamp,
      with no reconnection and no reconfiguration of the track from the first frame to the message. */
  ghost predicate FramesEvidence(env: Env, es: seq<Event>, t: Track, frames: seq<nat>, at: nat, info: SegmentInfo) {
    && at < |es| && es[at].IsSegmentInfo() && es[at].track == t && info.track == t
    && frames != [] && AllFrames(es, t, frames, at)
    && (forall k :: 0 <= k < |frames| ==> es[frames[k]].csid == es[at].csid)
    && es[frames[|frames| - 1]].timestamp == es[at].timestamp
    && env.sha(info.algorithm, EventPreimage(es, frames)) == info.hash
    && NoReconnect(es, frames[0], at)
    && NoConfigOn(es, t, frames[0], at)
  }

  /** A delivered manifest was valid for the initialization data at time `m`. */
  ghost predicate BoundEvidence(env: Env, es: seq<Event>, m: nat, store: seq<byte>, hash: seq<byte>)
    requires m <= |es| < TWO64 - 1
  {
    && hash == env.sha(Sha256, InitializationAt(es, m))
    && env.validate(InitializationAt(es, m), store) == Some(Report(true, true))
  }

  /** The named manifest is the last one delivered, nothing reconnected or was reconfigured since, and it was validated
      after that delivery against the very initialization data in force. */
  ghost predicate ManifestEvidence(env: Env, es: seq<Event>, acc: Acceptance, info: SegmentInfo)
    requires acc.at < |es| < TWO64 - 1
  {
    var j := LastManifest(es, acc.at);
    && j.Some?
    && env.parseManifest(es[j.value].value).Some?
    && env.parseManifest(es[j.value].value).value.0 == info.manifestId
    && NoReconnect(es, j.value, acc.at)
    && NoConfigAtAll(es, j.value, acc.at)
    && j.value < acc.boundAt <= acc.at
    && InitializationAt(es, acc.boundAt) == InitializationAt(es, acc.at)
    && env.validate(InitializationAt(es, acc.at), es[j.value].value) == Some(Report(true, true))
  }

  /** The key verifies the message under its own id and over this very payload, is meant for this sequence number, and is in
      force at the validation time. */
  predicate Vouches(env: Env, key: SessionKey, info: SegmentInfo, cose: seq<byte>) {
    && env.verifyCose(cose, key.coseKey) == Some(Verified(Some(key.keyId), info.payload))
    && key.minimumSequence <= info.sequence
    && key.createdAt <= env.now && env.now <= key.expiresAt
  }

  /** A key is accepted exactly if it vouches for the message and no other track owns it. */
  lemma KeyAcceptsMeans(env: Env, keyTracks: map<seq<byte>, Track>, key: SessionKey, t: Track, info: SegmentInfo, cose: seq<byte>)
    ensures KeyAccepts(env, keyTracks, key, t, info, cose) <==>
            Vouches(env, key, info, cose) && (key.keyId in keyTracks ==> keyTracks[key.keyId] == t)
  {
  }

  /** A key of that manifest authenticates the message at the validation time. */
  ghost predicate KeyEvidence(env: Env, es: seq<Event>, at: nat, info: SegmentInfo, keyId: seq<byte>)
    requires at < |es|
  {
    var j := LastManifest(es, at);
    && es[at].IsSegmentInfo()
    && j.Some? && env.parseManifest(es[j.value].value).Some?
    && exists key :: key in env.parseManifest(es[j.value].value).value.1 && key.keyId == keyId && Vouches(env, key, info, es[at].value)
  }

  ghost predicate Evidence(env: Env, es: seq<Event>, t: Track, frames: seq<nat>, acc: Acceptance, a: Accepted)
    requires |es| < TWO64 - 1
  {
    && acc.at < |es| && es[acc.at].IsSegmentInfo()
    && var read := UntrustedSegmentInfo(env.widen, es[acc.at].value);
    && read.Ok?
    && a.sequence == read.value.sequence && a.manifestId == read.value.manifestId
    && FramesEvidence(env, es, t, frames, acc.at, read.value)
    && ManifestEvidence(env, es, acc, read.value)
    && KeyEvidence(env, es, acc.at, read.value, a.keyId)
  }

  // ---- Open frames -----------------------------------------------------------------

  /** Record `f` was made from event `i`, and no reconnection has followed. */
  ghost predicate FrameAt(es: seq<Event>, n: nat, t: Track, f: FrameRecord, i: nat)
    requires n <= |es| < TWO64 - 1
  {
    && i < n && es[i].IsFrameOn(t) && t in ConfigsOf(es, i)
    && f == FrameRecord(es[i].csid, es[i].timestamp, es[i].offset, es[i].data, ConfigsOf(es, i)[t].revision)
    && NoReconnect(es, i, n)
  }

  ghost predicate FramesMatch(es: seq<Event>, n: nat, t: Track, frames: seq<FrameRecord>, open: seq<nat>)
    requires n <= |es| < TWO64 - 1
  {
    && |frames| == |open|
    && (forall k :: 0 <= k < |open| ==> FrameAt(es, n, t, frames[k], open[k]))
    && (forall j, k :: 0 <= j < k < |open| ==> open[j] < open[k])
  }

  lemma FramesMatchLater(es: seq<Event>, n: nat, t: Track, frames: seq<FrameRecord>, open: seq<nat>)
    requires n < |es| < TWO64 - 1 && FramesMatch(es, n, t, frames, open) && !es[n].Reconnect?
    ensures FramesMatch(es, n + 1, t, frames, open)
  {
    forall k | 0 <= k < |open| ensures FrameAt(es, n + 1, t, frames[k], open[k]) {
      assert FrameAt(es, n, t, frames[k], open[k]);
    }
  }

  lemma {:induction false} PreimageOfEvents(es: seq<Event>, n: nat, t: Track, frames: seq<FrameRecord>, open: seq<nat>)
    requires n <= |es| < TWO64 - 1 && FramesMatch(es, n, t, frames, open)
    ensures forall k :: 0 <= k < |open| ==> open[k] < |es| && es[open[k]].Frame?
    ensures Preimage(frames) == EventPreimage(es, open)
  {
    forall k | 0 <= k < |open| ensures open[k] < |es| && es[open[k]].Frame? {
      assert FrameAt(es, n, t, frames[k], open[k]);
    }
    if open != [] {
      var m := |open| - 1;
      assert FramesMatch(es, n, t, frames[..m], open[..m]) by {
        forall k | 0 <= k < m ensures FrameAt(es, n, t, frames[..m][k], open[..m][k]) {
          assert FrameAt(es, n, t, frames[k], open[k]);
        }
      }
      PreimageOfEvents(es, n, t, frames[..m], open[..m]);
      assert FrameAt(es, n, t, frames[m], open[m]);
    }
  }

  // ---- The active delivery ------------------------------------------------------------

  /** The stored delivery of the active manifest is the last delivery event, and what it is bound to was validated. */
  ghost predicate DeliveryInv(env: Env, es: seq<Event>, n: nat, s: State, h: History)
    requires n <= |es| < TWO64 - 1
  {
    s.active.Some? ==>
      var id, j := s.active.value.manifestId, LastManifest(es, n);
      && id in s.manifests && j.Some?
      && s.manifests[id].store == es[j.value].value
      && env.parseManifest(es[j.value].value) == Some((id, s.manifests[id].keys))
      && (s.manifests[id].bound.Some? ==>
            && j.value < h.boundAt < n
            && BoundEvidence(env, es, h.boundAt, s.manifests[id].store, s.manifests[id].bound.value))
  }

  // ---- Acceptance ------------------------------------------------------------------------

  /** The state right before event `n`, as far as acceptance on track `t` is concerned. */
  ghost predicate Ready(env: Env, es: seq<Event>, n: nat, s: State, h: History, t: Track)
    requires n <= |es| < TWO64 - 1
  {
    && ClockInv(env, es, n, s)
    && DeliveryInv(env, es, n, s, h)
    && FramesMatch(es, n, t, s.Get(t).frames, h.Open(t))
  }

  lemma CandidateFrames(env: Env, es: seq<Event>, n: nat, s: State, h: History, t: Track)
    requires n < |es| < TWO64 - 1 && es[n].IsSegmentInfo() && es[n].track == t && Ready(env, es, n, s, h, t)
    requires CheckCandidate(env, s, t, es[n].csid, es[n].timestamp, es[n].value).Ok?
    ensures FramesEvidence(env, es, t, h.Open(t), n, CheckCandidate(env, s, t, es[n].csid, es[n].timestamp, es[n].value).value)
  {
    hide UntrustedSegmentInfo, CheckActive, Preimage, EventPreimage, ConfigsOf, DeliveryInv;
    var frames, open := s.Get(t).frames, h.Open(t);
    CandidateChecked(env, s, t, es[n].csid, es[n].timestamp, es[n].value);
    PreimageOfEvents(es, n, t, frames, open);
    forall k | 0 <= k < |open|
      ensures open[k] < n && es[open[k]].IsFrameOn(t) && es[open[k]].csid == es[n].csid
      ensures es[open[k]].timestamp == frames[k].timestamp
      ensures NoReconnect(es, open[k], n) && NoConfigOn(es, t, open[k], n)
    {
      assert FrameAt(es, n, t, frames[k], open[k]);
      assert frames[k].csid == es[n].csid && frames[k].revision == s.configs[t].revision;
      SameRevision(es, open[k], n, t);
    }
  }

  lemma CandidateChecked(env: Env, s: State, t: Track, csid: u32, timestamp: u32, cose: seq<byte>)
    requires CheckCandidate(env, s, t, csid, timestamp, cose).Ok?
    ensures var info := CheckCandidate(env, s, t, csid, timestamp, cose).value;
            && UntrustedSegmentInfo(env.widen, cose) == Ok(info)
            && CheckActive(s, info) == Ok(info)
            && (s.Get(t).lastSequence.Some? ==> s.Get(t).lastSequence.value + 1 == info.sequence)
  {
    hide UntrustedSegmentInfo, Preimage;
  }

  /** A successful binding, whether new or kept, ties the manifest to the data in force. */
  lemma CandidateManifest(env: Env, es: seq<Event>, n: nat, s: State, h: History, info: SegmentInfo, d: Delivery, boundAt: nat)
    requires n < |es| < TWO64 - 1 && ClockInv(env, es, n, s) && DeliveryInv(env, es, n, s, h)
    requires CheckActive(s, info) == Ok(info)
    requires Bind(env, s.manifests[info.manifestId], InitializationData(s.configs)) == Ok(d)
    requires boundAt == if s.manifests[info.manifestId].bound.None? then n else h.boundAt
    ensures ManifestEvidence(env, es, Acceptance(n, boundAt), info)
    ensures d.keys == s.manifests[info.manifestId].keys && d.store == s.manifests[info.manifestId].store
    ensures d.bound.Some? && BoundEvidence(env, es, boundAt, d.store, d.bound.value)
  {
    hide InitializationData, ConfigsOf, ActiveOf;
    ActiveIsLast(env, es, n);
    NumConfigsMonotone(es, LastManifest(es, n).value, n);
    ConfigsSteady(es, boundAt, n);
    assert InitializationData(s.configs) == InitializationAt(es, n);
  }

  /** A manifest that is still active was not bound to other initialization data. */
  lemma NeverElsewhere(env: Env, es: seq<Event>, n: nat, s: State, h: History, info: SegmentInfo)
    requires n < |es| < TWO64 - 1 && ClockInv(env, es, n, s) && DeliveryInv(env, es, n, s, h)
    requires CheckActive(s, info) == Ok(info)
    ensures Bind(env, s.manifests[info.manifestId], InitializationData(s.configs)) != Err(BoundElsewhere)
  {
    hide InitializationData, ConfigsOf, ActiveOf;
    ActiveIsLast(env, es, n);
    NumConfigsMonotone(es, LastManifest(es, n).value, n);
    if s.manifests[info.manifestId].bound.Some? {
      ConfigsSteady(es, h.boundAt, n);
    }
  }

  lemma {:induction false} FoundKeyAccepts(env: Env, keyTracks: map<seq<byte>, Track>, keys: seq<SessionKey>, t: Track, info: SegmentInfo, cose: seq<byte>)
    requires FindKey(env, keyTracks, keys, t, info, cose).Some?
    ensures var key := FindKey(env, keyTracks, keys, t, info, cose).value;
            key in keys && KeyAccepts(env, keyTracks, key, t, info, cose)
  {
    hide KeyAccepts;
    if !KeyAccepts(env, keyTracks, keys[0], t, info, cose) {
      FoundKeyAccepts(env, keyTracks, keys[1..], t, info, cose);
    }
  }
}
