/** Resolving a trust store source by source, in place. */
module TrustResolution {
  import opened Octets
  import opened Texts
  import opened Trust

  /** Index of the certificate's entry, or the length of the list. */
  method Locate(anchors: seq<Anchor>, c: Certificate) returns (k: nat)
    ensures k == Find(anchors, c)
  {
    k := 0;
    while k < |anchors| && anchors[k].certificate != c
      invariant k <= |anchors| && forall i :: 0 <= i < k ==> anchors[i].certificate != c
    {
      k := k + 1;
    }
  }

  /** Narrow or add the entry of each anchor in turn. */
  method InstallEach(windowed: seq<Anchor>, anchors: seq<Anchor>) returns (r: seq<Anchor>)
    ensures r == InstallAll(windowed, anchors)
  {
    hide Find, Intersect;
    r := windowed;
    for i := 0 to |anchors|
      invariant r == InstallAll(windowed, anchors[..i])
    {
      assert anchors[..i + 1][..i] == anchors[..i];
      var k := Locate(r, anchors[i].certificate);
      if k < |r| {
        r := r[k := r[k].(window := Intersect(r[k].window, anchors[i].window))];
      } else {
        r := r + [anchors[i]];
      }
    }
    assert anchors[..|anchors|] == anchors;
  }

  method RetainUnwindowed(anchors: seq<Anchor>, windowed: seq<Anchor>) returns (r: seq<Anchor>)
    ensures r == Retain(anchors, windowed)
  {
    hide Find;
    r := [];
    for i := 0 to |anchors|
      invariant r == Retain(anchors[..i], windowed)
    {
      assert anchors[..i + 1][..i] == anchors[..i];
      var k := Locate(windowed, anchors[i].certificate);
      if k == |windowed| {
        r := r + [anchors[i]];
      }
    }
    assert anchors[..|anchors|] == anchors;
  }

  /** Once a prefix of the sources fails, resolution fails with the same error. */
  lemma {:induction false} GatherStops(r: Reader, custom: Option<seq<Anchor>>, sources: seq<Source>, purpose: Purpose, bounds: Window, n: nat)
    requires n <= |sources| && Gather(r, custom, sources[..n], purpose, bounds).Err?
    ensures Gather(r, custom, sources, purpose, bounds) == Gather(r, custom, sources[..n], purpose, bounds)
    decreases |sources| - n
  {
    hide ReadSource;
    if n == |sources| {
      assert sources[..n] == sources;
    } else {
      assert sources[..n + 1][..n] == sources[..n];
      GatherStops(r, custom, sources, purpose, bounds, n + 1);
    }
  }

  method Resolve(r: Reader, pem: Option<Text>, sources: seq<Source>, bundled: Option<seq<Anchor>>, purpose: Purpose, bounds: Window)
    returns (resolved: Outcome<Option<Resolved>>)
    ensures resolved == ResolveTrust(r, pem, sources, bundled, purpose, bounds)
  {
    hide ReadSource, CustomAnchors, InstallAll, Retain;
    var custom :- CustomAnchors(r, pem, purpose, bounds);
    ghost var start := custom;
    var windowed := [];
    for i := 0 to |sources|
      invariant Gather(r, start, sources[..i], purpose, bounds) == Ok(Gathered(custom, windowed))
    {
      assert sources[..i + 1][..i] == sources[..i];
      var sourced := ReadSource(r, sources[i], purpose, bounds);
      if sourced.Err? {
        GatherStops(r, start, sources, purpose, bounds, i + 1);
        return Err(sourced.error);
      }
      if sources[i].Windowed() {
        windowed := InstallEach(windowed, sourced.value);
      } else if custom.Some? {
        custom := Some(custom.value + sourced.value);
      } else {
        assert [] + sourced.value == sourced.value;
        custom := Some(sourced.value);
      }
    }
    assert sources[..|sources|] == sources;
    var base := if bundled.Some? then bundled.value else [];
    var unwindowed := if custom.Some? then custom.value else [];
    if windowed != [] {
      var merged := RetainUnwindowed(base + unwindowed, windowed);
      return Ok(Some(Owned(merged + windowed)));
    }
    match (bundled, custom) {
      case (None, None) => resolved := Ok(None);
      case (Some(trust), None) => resolved := Ok(Some(Bundled(trust)));
      case (_, Some(own)) => resolved := Ok(Some(Owned(base + own)));
    }
  }
}
