/** What an event list alone says: configurations, manifests and reconnections up to a point in time. */
module ErtmpTimeline {
  import opened Octets
  import opened ErtmpTypes
  import opened ErtmpVerifier

  /** Codec configurations among the first `n` events. */
  function NumConfigs(es: seq<Event>, n: nat): (k: nat)
    requires n <= |es|
    ensures k <= n
  {
    if n == 0 then 0 else NumConfigs(es, n - 1) + if es[n - 1].CodecConfig? then 1 else 0
  }

  /** The configurations in force after `n` events: the latest of each track since the last reconnection. */
  function ConfigsOf(es: seq<Event>, n: nat): map<Track, Config>
    requires n <= |es| < TWO64 - 1
  {
    if n == 0 then map[]
    else match es[n - 1]
      case CodecConfig(t, csid, payload) => ConfigsOf(es, n - 1)[t := Config(csid, payload, NumConfigs(es, n - 1) + 1)]
      case Reconnect => map[]
      case _ => ConfigsOf(es, n - 1)
  }

  function InitializationAt(es: seq<Event>, n: nat): seq<byte>
    requires n <= |es| < TWO64 - 1
  {
    InitializationData(ConfigsOf(es, n))
  }

  /** The latest manifest delivery among the first `n` events. */
  function LastManifest(es: seq<Event>, n: nat): (r: Option<nat>)
    requires n <= |es|
    ensures r.Some? ==> r.value < n && es[r.value].IsManifest()
  {
    if n == 0 then None else if es[n - 1].IsManifest() then Some(n - 1) else LastManifest(es, n - 1)
  }

  /** The active manifest after `n` events. */
  function ActiveOf(env: Env, es: seq<Event>, n: nat): Option<Active>
    requires n <= |es| < TWO64 - 1
  {
    if n == 0 then None
    else if es[n - 1].IsManifest() && env.parseManifest(es[n - 1].value).Some? then
      Some(Active(env.parseManifest(es[n - 1].value).value.0, NumConfigs(es, n - 1), true))
    else if es[n - 1].Reconnect? then
      match ActiveOf(env, es, n - 1) case None => None case Some(a) => Some(a.(sinceReconnect := false))
    else ActiveOf(env, es, n - 1)
  }

  predicate NoReconnect(es: seq<Event>, lo: nat, hi: nat)
    requires hi <= |es|
  {
    forall i :: lo <= i < hi ==> !es[i].Reconnect?
  }

  predicate NoConfigAtAll(es: seq<Event>, lo: nat, hi: nat)
    requires hi <= |es|
  {
    forall i :: lo <= i < hi ==> !es[i].CodecConfig?
  }

  predicate NoConfigOn(es: seq<Event>, t: Track, lo: nat, hi: nat)
    requires hi <= |es|
  {
    forall i :: lo <= i < hi ==> !es[i].IsConfigOn(t)
  }

  predicate NoManifest(es: seq<Event>, lo: nat, hi: nat)
    requires hi <= |es|
  {
    forall i :: lo <= i < hi ==> !es[i].IsManifest()
  }

  /** All frame events of a track among the first `n`, in order. */
  function FrameIndices(es: seq<Event>, n: nat, t: Track): seq<nat>
    requires n <= |es|
  {
    if n == 0 then [] else FrameIndices(es, n - 1, t) + if es[n - 1].IsFrameOn(t) then [n - 1] else []
  }

  lemma {:induction false} NumConfigsMonotone(es: seq<Event>, m: nat, n: nat)
    requires m <= n <= |es|
    ensures NumConfigs(es, m) <= NumConfigs(es, n)
    ensures NumConfigs(es, m) == NumConfigs(es, n) ==> NoConfigAtAll(es, m, n)
    decreases n
  {
    if m < n {
      NumConfigsMonotone(es, m, n - 1);
    }
  }

  lemma {:induction false} ConfigRevisionAtMost(es: seq<Event>, n: nat, t: Track)
    requires n <= |es| < TWO64 - 1 && t in ConfigsOf(es, n)
    ensures ConfigsOf(es, n)[t].revision <= NumConfigs(es, n)
  {
    if n != 0 && t in ConfigsOf(es, n - 1) {
      ConfigRevisionAtMost(es, n - 1, t);
    }
  }

  lemma {:induction false} ConfigRevisionAtLeast(es: seq<Event>, j: nat, n: nat, t: Track)
    requires j < n <= |es| < TWO64 - 1 && es[j].IsConfigOn(t) && t in ConfigsOf(es, n)
    ensures ConfigsOf(es, n)[t].revision > NumConfigs(es, j)
    decreases n
  {
    NumConfigsMonotone(es, j, n - 1);
    if !es[n - 1].IsConfigOn(t) {
      ConfigRevisionAtLeast(es, j, n - 1, t);
    }
  }

  /** Equal revisions at two times mean the track was not reconfigured in between. */
  lemma SameRevision(es: seq<Event>, i: nat, n: nat, t: Track)
    requires i <= n <= |es| < TWO64 - 1 && t in ConfigsOf(es, i) && t in ConfigsOf(es, n)
    requires ConfigsOf(es, i)[t].revision == ConfigsOf(es, n)[t].revision
    ensures NoConfigOn(es, t, i, n)
  {
    forall j | i <= j < n ensures !es[j].IsConfigOn(t) {
      if es[j].IsConfigOn(t) {
        ConfigRevisionAtMost(es, i, t);
        NumConfigsMonotone(es, i, j);
        ConfigRevisionAtLeast(es, j, n, t);
      }
    }
  }

  /** The active manifest is the last one delivered, and its flags tell what has happened since. */
  lemma {:induction false} ActiveIsLast(env: Env, es: seq<Event>, n: nat)
    requires n <= |es| < TWO64 - 1
    requires forall i :: 0 <= i < n && es[i].IsManifest() ==> env.parseManifest(es[i].value).Some?
    requires ActiveOf(env, es, n).Some?
    ensures LastManifest(es, n).Some?
    ensures var a, j := ActiveOf(env, es, n).value, LastManifest(es, n).value;
            && env.parseManifest(es[j].value).Some?
            && a.manifestId == env.parseManifest(es[j].value).value.0
            && a.revision == NumConfigs(es, j)
            && (a.sinceReconnect ==> NoReconnect(es, j, n))
            && NoManifest(es, j + 1, n)
  {
    if !es[n - 1].IsManifest() {
      ActiveIsLast(env, es, n - 1);
    }
  }

  /** Without a reconnection or a configuration the configurations in force stay as they are. */
  lemma {:induction false} ConfigsSteady(es: seq<Event>, lo: nat, hi: nat)
    requires lo <= hi <= |es| < TWO64 - 1 && NoReconnect(es, lo, hi) && NoConfigAtAll(es, lo, hi)
    ensures ConfigsOf(es, hi) == ConfigsOf(es, lo)
  {
    if lo < hi {
      ConfigsSteady(es, lo, hi - 1);
    }
  }

  /** The latest configuration of a track since the last reconnection is in force. */
  lemma {:induction false} LatestConfigInForce(es: seq<Event>, i: nat, n: nat, t: Track)
    requires i < n <= |es| < TWO64 - 1 && es[i].IsConfigOn(t)
    requires NoReconnect(es, i, n) && NoConfigOn(es, t, i + 1, n)
    ensures t in ConfigsOf(es, n) && ConfigsOf(es, n)[t] == Config(es[i].csid, es[i].payload, NumConfigs(es, i) + 1)
    decreases n
  {
    if i < n - 1 {
      LatestConfigInForce(es, i, n - 1, t);
    }
  }

  /** Nothing else is in force. */
  lemma {:induction false} ConfigHasSource(es: seq<Event>, n: nat, t: Track) returns (i: nat)
    requires n <= |es| < TWO64 - 1 && t in ConfigsOf(es, n)
    ensures i < n && es[i].IsConfigOn(t) && NoReconnect(es, i, n) && NoConfigOn(es, t, i + 1, n)
  {
    if es[n - 1].IsConfigOn(t) {
      i := n - 1;
    } else {
      i := ConfigHasSource(es, n - 1, t);
    }
  }
}
