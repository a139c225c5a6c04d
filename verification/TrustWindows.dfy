/** Which certificate is accepted when. */
module TrustWindows {
  import opened Octets
  import opened Texts
  import opened Trust

  // ---- Meaning -----------------------------------------------------------------------------------

  /** Some entry for the certificate is in force. */
  ghost predicate Accepts(anchors: seq<Anchor>, c: Certificate, t: int) {
    exists k :: 0 <= k < |anchors| && anchors[k].certificate == c && anchors[k].window.Contains(t)
  }

  /** Every entry for the certificate is in force. */
  ghost predicate AllActive(anchors: seq<Anchor>, c: Certificate, t: int) {
    forall k :: 0 <= k < |anchors| && anchors[k].certificate == c ==> anchors[k].window.Contains(t)
  }

  ghost predicate Lists(anchors: seq<Anchor>, c: Certificate) {
    exists k :: 0 <= k < |anchors| && anchors[k].certificate == c
  }

  predicate OncePerCertificate(anchors: seq<Anchor>) {
    forall i, j :: 0 <= i < j < |anchors| ==> anchors[i].certificate != anchors[j].certificate
  }

  predicate Provides(r: Reader, pem: Text, c: Certificate) {
    r.pem(pem).Some? && c in r.pem(pem).value
  }

  /** Some source gives the certificate a window. */
  ghost predicate Restricted(r: Reader, sources: seq<Source>, c: Certificate) {
    exists i :: 0 <= i < |sources| && sources[i].Windowed() && Provides(r, sources[i].pem, c)
  }

  /** Some source names the certificate without a window. */
  ghost predicate Supplied(r: Reader, sources: seq<Source>, c: Certificate) {
    exists i :: 0 <= i < |sources| && !sources[i].Windowed() && Provides(r, sources[i].pem, c)
  }

  /** A bound that is given must be an instant, and the instant `t` on its right side. */
  predicate InWindow(r: Reader, s: Source, t: int) {
    && (s.notBefore.Some? ==> r.instant(s.notBefore.value).Some? && r.instant(s.notBefore.value).value <= t)
    && (s.notAfter.Some? ==> r.instant(s.notAfter.value).Some? && t <= r.instant(s.notAfter.value).value)
  }

  /** What a source must be to be taken at all: named, typed, with readable bounds in order and a readable bundle. */
  predicate SourceReadable(r: Reader, s: Source) {
    && !r.blank(s.uri) && r.validUri(s.uri) && !r.blank(s.kind)
    && (s.identifier.Some? ==> !r.blank(s.identifier.value))
    && (s.notBefore.Some? ==> r.instant(s.notBefore.value).Some?)
    && (s.notAfter.Some? ==> r.instant(s.notAfter.value).Some?)
    && (s.notBefore.Some? && s.notAfter.Some? ==> r.instant(s.notBefore.value).value <= r.instant(s.notAfter.value).value)
    && r.pem(s.pem).Some?
  }

  /** The instant lies in the bounds and in the window of every source that gives the certificate one. */
  ghost predicate InAllWindows(r: Reader, sources: seq<Source>, bounds: Window, c: Certificate, t: int) {
    && (Restricted(r, sources, c) ==> bounds.Contains(t))
    && forall i :: 0 <= i < |sources| && sources[i].Windowed() && Provides(r, sources[i].pem, c) ==> InWindow(r, sources[i], t)
  }

  /** When the certificate should be accepted, in terms of the sources as a set. */
  ghost predicate ShouldAccept(r: Reader, pem: Option<Text>, sources: seq<Source>, bundled: Option<seq<Anchor>>, bounds: Window, c: Certificate, t: int) {
    if Restricted(r, sources, c) then InAllWindows(r, sources, bounds, c, t)
    else
      || (bundled.Some? && Accepts(bundled.value, c, t))
      || (bounds.Contains(t) && (Supplied(r, sources, c) || (pem.Some? && Provides(r, pem.value, c))))
  }

  // ---- Reading sources --------------------------------------------------------------------------------

  lemma IntersectMeans(a: Window, b: Window, t: int)
    ensures Intersect(a, b).Contains(t) <==> a.Contains(t) && b.Contains(t)
  {
  }

  /** The window read from a source is the one its fields describe. */
  lemma OwnWindowMeans(r: Reader, s: Source, t: int)
    requires OwnWindow(r, s).Ok?
    ensures OwnWindow(r, s).value.Contains(t) <==> InWindow(r, s, t)
  {
  }

  lemma ReadableMeans(r: Reader, s: Source, purpose: Purpose, bounds: Window)
    ensures ReadSource(r, s, purpose, bounds).Ok? <==> SourceReadable(r, s)
  {
  }

  lemma FromPemMeans(r: Reader, pem: Text, a: Anchor, c: Certificate)
    requires FromPem(r, pem, a).Ok?
    ensures Lists(FromPem(r, pem, a).value, c) <==> Provides(r, pem, c)
    ensures forall k :: 0 <= k < |FromPem(r, pem, a).value| ==> FromPem(r, pem, a).value[k].window == a.window
  {
    var anchors := FromPem(r, pem, a).value;
    if Provides(r, pem, c) {
      var k :| 0 <= k < |r.pem(pem).value| && r.pem(pem).value[k] == c;
      assert anchors[k].certificate == c;
    }
  }

  lemma ReadSourceMeans(r: Reader, s: Source, purpose: Purpose, bounds: Window, c: Certificate, t: int)
    requires ReadSource(r, s, purpose, bounds).Ok?
    ensures var anchors := ReadSource(r, s, purpose, bounds).value;
            && (Lists(anchors, c) <==> Provides(r, s.pem, c))
            && OwnWindow(r, s).Ok?
            && forall k :: 0 <= k < |anchors| ==> (anchors[k].window.Contains(t) <==> InWindow(r, s, t) && bounds.Contains(t))
  {
    hide FromPem, OwnWindow, InWindow;
    var own := OwnWindow(r, s).value;
    OwnWindowMeans(r, s, t);
    var a := Anchor([], purpose, Intersect(own, bounds), SmimeInterim, Some(Origin(s.uri, s.kind, s.identifier)));
    FromPemMeans(r, s.pem, a, c);
    IntersectMeans(own, bounds, t);
  }

  // ---- Windowed entries ----------------------------------------------------------------------------------

  lemma InstallMeans(ws: seq<Anchor>, a: Anchor, c: Certificate, t: int)
    ensures var r := Install(ws, a);
            && (OncePerCertificate(ws) ==> OncePerCertificate(r))
            && (Lists(r, c) <==> Lists(ws, c) || a.certificate == c)
            && (AllActive(r, c, t) <==> AllActive(ws, c, t) && (a.certificate == c ==> a.window.Contains(t)))
  {
    hide Find, Intersect;
    var k, r := Find(ws, a.certificate), Install(ws, a);
    if k < |ws| {
      IntersectMeans(ws[k].window, a.window, t);
      ListsUpdated(ws, r, k, c);
      ActiveUpdated(ws, r, k, a, c, t);
    } else {
      assert r[|ws|] == a;
      ListsAppended(ws, a, c);
      ActiveAppended(ws, a, c, t);
    }
  }

  lemma ListsUpdated(ws: seq<Anchor>, r: seq<Anchor>, k: nat, c: Certificate)
    requires |r| == |ws| && forall i :: 0 <= i < |ws| ==> r[i].certificate == ws[i].certificate
    ensures Lists(r, c) <==> Lists(ws, c)
  {
    if Lists(ws, c) {
      var i :| 0 <= i < |ws| && ws[i].certificate == c;
      assert r[i].certificate == c;
    }
  }

  lemma ActiveUpdated(ws: seq<Anchor>, r: seq<Anchor>, k: nat, a: Anchor, c: Certificate, t: int)
    requires k < |ws| == |r| && ws[k].certificate == a.certificate && r == ws[k := r[k]] && r[k].certificate == a.certificate
    requires r[k].window.Contains(t) <==> ws[k].window.Contains(t) && a.window.Contains(t)
    ensures AllActive(r, c, t) <==> AllActive(ws, c, t) && (a.certificate == c ==> a.window.Contains(t))
  {
    if AllActive(r, c, t) {
      forall i | 0 <= i < |ws| && ws[i].certificate == c ensures ws[i].window.Contains(t) {
        assert r[i].certificate == c;
      }
      assert a.certificate == c ==> r[k].window.Contains(t);
    }
  }

  lemma ListsAppended(ws: seq<Anchor>, a: Anchor, c: Certificate)
    ensures Lists(ws + [a], c) <==> Lists(ws, c) || a.certificate == c
  {
    var r := ws + [a];
    assert r[|ws|] == a;
    if Lists(ws, c) {
      var i :| 0 <= i < |ws| && ws[i].certificate == c;
      assert r[i].certificate == c;
    }
  }

  lemma ActiveAppended(ws: seq<Anchor>, a: Anchor, c: Certificate, t: int)
    ensures AllActive(ws + [a], c, t) <==> AllActive(ws, c, t) && (a.certificate == c ==> a.window.Contains(t))
  {
    var r := ws + [a];
    assert r[|ws|] == a;
    assert forall i :: 0 <= i < |ws| ==> r[i] == ws[i];
  }

  lemma {:induction false} InstallAllMeans(ws: seq<Anchor>, anchors: seq<Anchor>, c: Certificate, t: int)
    ensures var r := InstallAll(ws, anchors);
            && (OncePerCertificate(ws) ==> OncePerCertificate(r))
            && (Lists(r, c) <==> Lists(ws, c) || Lists(anchors, c))
            && (AllActive(r, c, t) <==> AllActive(ws, c, t) && AllActive(anchors, c, t))
  {
    if anchors != [] {
      hide Install;
      var prefix, a := anchors[..|anchors| - 1], anchors[|anchors| - 1];
      assert anchors == prefix + [a];
      InstallAllMeans(ws, prefix, c, t);
      InstallMeans(InstallAll(ws, prefix), a, c, t);
      ListsAppended(prefix, a, c);
      ActiveAppended(prefix, a, c, t);
    }
  }

  // ---- All sources ---------------------------------------------------------------------------------------

  ghost predicate GatherMeans(r: Reader, custom: seq<Anchor>, sources: seq<Source>, bounds: Window, g: Gathered, c: Certificate, t: int) {
    && OncePerCertificate(g.windowed)
    && (Lists(g.windowed, c) <==> Restricted(r, sources, c))
    && (AllActive(g.windowed, c, t) <==> InAllWindows(r, sources, bounds, c, t))
    && (Accepts(g.Custom(), c, t) <==> Accepts(custom, c, t) || (Supplied(r, sources, c) && bounds.Contains(t)))
  }

  lemma RestrictedAppend(r: Reader, sources: seq<Source>, s: Source, c: Certificate)
    ensures Restricted(r, sources + [s], c) <==> Restricted(r, sources, c) || (s.Windowed() && Provides(r, s.pem, c))
    ensures Supplied(r, sources + [s], c) <==> Supplied(r, sources, c) || (!s.Windowed() && Provides(r, s.pem, c))
  {
    var all := sources + [s];
    assert all[|sources|] == s;
    assert forall i :: 0 <= i < |sources| ==> all[i] == sources[i];
  }

  lemma InAllAppend(r: Reader, sources: seq<Source>, s: Source, bounds: Window, c: Certificate, t: int)
    ensures InAllWindows(r, sources + [s], bounds, c, t) <==>
            InAllWindows(r, sources, bounds, c, t) && (s.Windowed() && Provides(r, s.pem, c) ==> bounds.Contains(t) && InWindow(r, s, t))
  {
    hide InWindow;
    RestrictedAppend(r, sources, s, c);
    var all := sources + [s];
    assert all[|sources|] == s;
    assert forall i :: 0 <= i < |sources| ==> all[i] == sources[i];
  }

  lemma AcceptsAppend(a: seq<Anchor>, b: seq<Anchor>, c: Certificate, t: int)
    ensures Accepts(a + b, c, t) <==> Accepts(a, c, t) || Accepts(b, c, t)
  {
    var all := a + b;
    if Accepts(a, c, t) {
      var k :| 0 <= k < |a| && a[k].certificate == c && a[k].window.Contains(t);
      assert all[k] == a[k];
    }
    if Accepts(b, c, t) {
      var k :| 0 <= k < |b| && b[k].certificate == c && b[k].window.Contains(t);
      assert all[|a| + k] == b[k];
    }
  }

  /** A source's anchors all stand or fall together. */
  lemma SourceActive(r: Reader, s: Source, purpose: Purpose, bounds: Window, c: Certificate, t: int)
    requires ReadSource(r, s, purpose, bounds).Ok?
    ensures var anchors := ReadSource(r, s, purpose, bounds).value;
            && (AllActive(anchors, c, t) <==> (Provides(r, s.pem, c) ==> InWindow(r, s, t) && bounds.Contains(t)))
            && (Accepts(anchors, c, t) <==> Provides(r, s.pem, c) && InWindow(r, s, t) && bounds.Contains(t))
            && (!s.Windowed() ==> InWindow(r, s, t))
  {
    ReadSourceMeans(r, s, purpose, bounds, c, t);
    hide ReadSource, Provides;
    var anchors := ReadSource(r, s, purpose, bounds).value;
    if Lists(anchors, c) {
      var k :| 0 <= k < |anchors| && anchors[k].certificate == c;
      assert anchors[k].window.Contains(t) <==> InWindow(r, s, t) && bounds.Contains(t);
    }
  }

  lemma {:induction false} GatherHolds(r: Reader, custom: Option<seq<Anchor>>, sources: seq<Source>, purpose: Purpose, bounds: Window, c: Certificate, t: int)
    requires Gather(r, custom, sources, purpose, bounds).Ok?
    ensures GatherMeans(r, if custom.Some? then custom.value else [], sources, bounds, Gather(r, custom, sources, purpose, bounds).value, c, t)
  {
    hide ReadSource, InstallAll, InWindow, Provides;
    if sources != [] {
      var prefix, s := sources[..|sources| - 1], sources[|sources| - 1];
      assert sources == prefix + [s];
      GatherHolds(r, custom, prefix, purpose, bounds, c, t);
      var g := Gather(r, custom, prefix, purpose, bounds).value;
      var anchors := ReadSource(r, s, purpose, bounds).value;
      AddSourceMeans(r, if custom.Some? then custom.value else [], prefix, s, purpose, bounds, g, c, t);
    }
  }

  lemma AddSourceMeans(r: Reader, custom: seq<Anchor>, sources: seq<Source>, s: Source, purpose: Purpose, bounds: Window, g: Gathered, c: Certificate, t: int)
    requires GatherMeans(r, custom, sources, bounds, g, c, t) && ReadSource(r, s, purpose, bounds).Ok?
    ensures GatherMeans(r, custom, sources + [s], bounds, AddSource(g, s, ReadSource(r, s, purpose, bounds).value), c, t)
  {
    hide ReadSource, InstallAll, InWindow, Provides, Restricted, Supplied, InAllWindows, Accepts, AllActive, Lists, OncePerCertificate;
    var anchors := ReadSource(r, s, purpose, bounds).value;
    ReadSourceMeans(r, s, purpose, bounds, c, t);
    SourceActive(r, s, purpose, bounds, c, t);
    RestrictedAppend(r, sources, s, c);
    InAllAppend(r, sources, s, bounds, c, t);
    if s.Windowed() {
      InstallAllMeans(g.windowed, anchors, c, t);
    } else {
      AcceptsAppend(g.Custom(), anchors, c, t);
    }
  }

  // ---- Merging --------------------------------------------------------------------------------------------

  lemma {:induction false} RetainMeans(anchors: seq<Anchor>, ws: seq<Anchor>, c: Certificate, t: int)
    ensures var r := Retain(anchors, ws);
            && (Accepts(r, c, t) <==> Accepts(anchors, c, t) && !Lists(ws, c))
            && (Lists(r, c) ==> !Lists(ws, c))
  {
    if anchors != [] {
      hide Find;
      var prefix, a := anchors[..|anchors| - 1], anchors[|anchors| - 1];
      assert anchors == prefix + [a];
      RetainMeans(prefix, ws, c, t);
      AcceptsAppend(prefix, [a], c, t);
      assert Find(ws, a.certificate) < |ws| <==> Lists(ws, a.certificate);
      AcceptsOne(a, c, t);
      if !Lists(ws, a.certificate) {
        AcceptsAppend(Retain(prefix, ws), [a], c, t);
        ListsAppended(Retain(prefix, ws), a, c);
      } else {
        assert Retain(prefix, ws) + [] == Retain(prefix, ws);
      }
    }
  }

  lemma AcceptsOne(a: Anchor, c: Certificate, t: int)
    ensures Accepts([a], c, t) <==> a.certificate == c && a.window.Contains(t)
  {
    assert [a][0] == a;
  }

  lemma CustomMeans(r: Reader, pem: Option<Text>, purpose: Purpose, bounds: Window, c: Certificate, t: int)
    requires CustomAnchors(r, pem, purpose, bounds).Ok?
    ensures var custom := CustomAnchors(r, pem, purpose, bounds).value;
            Accepts(if custom.Some? then custom.value else [], c, t) <==> pem.Some? && Provides(r, pem.value, c) && bounds.Contains(t)
  {
    hide FromPem, Provides;
    if pem.Some? {
      var a := Anchor([], purpose, bounds, if purpose.CawgIdentity? then CallerSupplied else SmimeInterim, None);
      FromPemMeans(r, pem.value, a, c);
      var anchors := FromPem(r, pem.value, a).value;
      if Lists(anchors, c) {
        var k :| 0 <= k < |anchors| && anchors[k].certificate == c;
        assert anchors[k].window == bounds;
      }
    }
  }

  /** With distinct entries, some entry in force and all entries in force are the same for a listed certificate. */
  lemma DistinctAccepts(ws: seq<Anchor>, c: Certificate, t: int)
    requires OncePerCertificate(ws)
    ensures Accepts(ws, c, t) <==> Lists(ws, c) && AllActive(ws, c, t)
  {
    if Lists(ws, c) && AllActive(ws, c, t) {
      var k :| 0 <= k < |ws| && ws[k].certificate == c;
      assert ws[k].window.Contains(t);
    }
  }

  /** The anchors of a resolved store. */
  function AnchorsOf(r: Option<Resolved>): seq<Anchor> {
    if r.Some? then r.value.anchors else []
  }

  lemma MergeMeans(bundled: Option<seq<Anchor>>, g: Gathered, c: Certificate, t: int)
    requires OncePerCertificate(g.windowed)
    ensures Accepts(AnchorsOf(Merge(bundled, g)), c, t) <==>
            if Lists(g.windowed, c) then AllActive(g.windowed, c, t)
            else (bundled.Some? && Accepts(bundled.value, c, t)) || Accepts(g.Custom(), c, t)
  {
    hide Retain, Find;
    var base := if bundled.Some? then bundled.value else [];
    AcceptsAppend(base, g.Custom(), c, t);
    if g.windowed != [] {
      RetainMeans(base + g.Custom(), g.windowed, c, t);
      AcceptsAppend(Retain(base + g.Custom(), g.windowed), g.windowed, c, t);
      DistinctAccepts(g.windowed, c, t);
    } else {
      assert base + [] == base;
    }
  }

  // ---- Main results ------------------------------------------------------------------------------------------

  /** The store accepts a certificate at an instant exactly when it should: one that any source gives a window, only inside
      the bounds and every such window; any other as bundled, or inside the bounds. */
  lemma AcceptanceExact(r: Reader, pem: Option<Text>, sources: seq<Source>, bundled: Option<seq<Anchor>>, purpose: Purpose, bounds: Window,
                        c: Certificate, t: int)
    requires ResolveTrust(r, pem, sources, bundled, purpose, bounds).Ok?
    ensures Accepts(AnchorsOf(ResolveTrust(r, pem, sources, bundled, purpose, bounds).value), c, t)
       <==> ShouldAccept(r, pem, sources, bundled, bounds, c, t)
  {
    hide Gather, CustomAnchors, Merge, Accepts, Lists, AllActive, InAllWindows, Restricted, Supplied, OncePerCertificate, Provides;
    var custom := CustomAnchors(r, pem, purpose, bounds).value;
    CustomMeans(r, pem, purpose, bounds, c, t);
    GatherHolds(r, custom, sources, purpose, bounds, c, t);
    MergeMeans(bundled, Gather(r, custom, sources, purpose, bounds).value, c, t);
  }

  /** A certificate that any source gives a window has exactly one entry, whatever else names it. */
  lemma WindowedOnce(r: Reader, pem: Option<Text>, sources: seq<Source>, bundled: Option<seq<Anchor>>, purpose: Purpose, bounds: Window, c: Certificate)
    requires ResolveTrust(r, pem, sources, bundled, purpose, bounds).Ok? && Restricted(r, sources, c)
    ensures var anchors := AnchorsOf(ResolveTrust(r, pem, sources, bundled, purpose, bounds).value);
            exists k :: 0 <= k < |anchors| && anchors[k].certificate == c
              && (forall j :: 0 <= j < |anchors| && anchors[j].certificate == c ==> j == k)
              && (forall t :: anchors[k].window.Contains(t) <==> InAllWindows(r, sources, bounds, c, t))
  {
    hide Gather, CustomAnchors, Restricted, Provides, InAllWindows, Retain, InWindow, OncePerCertificate, AllActive, Accepts;
    var custom := CustomAnchors(r, pem, purpose, bounds).value;
    var g := Gather(r, custom, sources, purpose, bounds).value;
    GatherHolds(r, custom, sources, purpose, bounds, c, 0);
    var base := if bundled.Some? then bundled.value else [];
    var kept := Retain(base + g.Custom(), g.windowed);
    RetainMeans(base + g.Custom(), g.windowed, c, 0);
    var anchors := AnchorsOf(ResolveTrust(r, pem, sources, bundled, purpose, bounds).value);
    assert anchors == kept + g.windowed;
    var w :| 0 <= w < |g.windowed| && g.windowed[w].certificate == c;
    forall t ensures g.windowed[w].window.Contains(t) <==> InAllWindows(r, sources, bounds, c, t) {
      GatherHolds(r, custom, sources, purpose, bounds, c, t);
      OneEntryActive(g.windowed, c, w, t);
    }
    OnlyEntries(kept, g.windowed, c, w);
    assert anchors[|kept| + w] == g.windowed[w];
  }

  lemma OnlyEntries(kept: seq<Anchor>, ws: seq<Anchor>, c: Certificate, w: nat)
    requires OncePerCertificate(ws) && w < |ws| && ws[w].certificate == c && !Lists(kept, c)
    ensures var all := kept + ws; forall j :: 0 <= j < |all| && all[j].certificate == c ==> j == |kept| + w
  {
    var all := kept + ws;
    forall j | 0 <= j < |all| && all[j].certificate == c ensures j == |kept| + w {
      OnlyEntry(kept, ws, c, w, j);
    }
  }

  lemma OnlyEntry(kept: seq<Anchor>, ws: seq<Anchor>, c: Certificate, w: nat, j: nat)
    requires OncePerCertificate(ws) && w < |ws| && ws[w].certificate == c && !Lists(kept, c)
    requires j < |kept + ws| && (kept + ws)[j].certificate == c
    ensures j == |kept| + w
  {
  }

  lemma OneEntryActive(ws: seq<Anchor>, c: Certificate, w: nat, t: int)
    requires OncePerCertificate(ws) && w < |ws| && ws[w].certificate == c
    ensures ws[w].window.Contains(t) <==> AllActive(ws, c, t)
  {
  }

  /** The same sources, in whatever order and however often each, accept the same certificates at the same instants. */
  lemma OrderIndependent(r: Reader, pem: Option<Text>, sources: seq<Source>, others: seq<Source>, bundled: Option<seq<Anchor>>, purpose: Purpose,
                         bounds: Window, c: Certificate, t: int)
    requires forall s :: s in sources <==> s in others
    ensures ResolveTrust(r, pem, sources, bundled, purpose, bounds).Ok? <==> ResolveTrust(r, pem, others, bundled, purpose, bounds).Ok?
    ensures ResolveTrust(r, pem, sources, bundled, purpose, bounds).Ok? ==>
              (Accepts(AnchorsOf(ResolveTrust(r, pem, sources, bundled, purpose, bounds).value), c, t)
               <==> Accepts(AnchorsOf(ResolveTrust(r, pem, others, bundled, purpose, bounds).value), c, t))
  {
    ReadableExact(r, pem, sources, bundled, purpose, bounds);
    ReadableExact(r, pem, others, bundled, purpose, bounds);
    hide ResolveTrust, Provides, InWindow, SourceReadable;
    if ResolveTrust(r, pem, sources, bundled, purpose, bounds).Ok? {
      AcceptanceExact(r, pem, sources, bundled, purpose, bounds, c, t);
      AcceptanceExact(r, pem, others, bundled, purpose, bounds, c, t);
      SameSet(r, sources, others, bounds, c, t);
      hide Accepts, Restricted, Supplied, InAllWindows;
    }
  }

  lemma SameSet(r: Reader, a: seq<Source>, b: seq<Source>, bounds: Window, c: Certificate, t: int)
    requires forall s :: s in a <==> s in b
    ensures Restricted(r, a, c) <==> Restricted(r, b, c)
    ensures Supplied(r, a, c) <==> Supplied(r, b, c)
    ensures InAllWindows(r, a, bounds, c, t) <==> InAllWindows(r, b, bounds, c, t)
  {
    Subset(r, a, b, bounds, c, t);
    Subset(r, b, a, bounds, c, t);
  }

  lemma Subset(r: Reader, a: seq<Source>, b: seq<Source>, bounds: Window, c: Certificate, t: int)
    requires forall s :: s in a ==> s in b
    ensures Restricted(r, a, c) ==> Restricted(r, b, c)
    ensures Supplied(r, a, c) ==> Supplied(r, b, c)
    ensures InAllWindows(r, b, bounds, c, t) ==> InAllWindows(r, a, bounds, c, t)
  {
    hide Provides, InWindow;
    forall i | 0 <= i < |a| ensures exists j :: 0 <= j < |b| && b[j] == a[i] {
      assert a[i] in b;
    }
  }

  /** Resolution succeeds exactly when the bundle and every single source can be read. */
  lemma ReadableExact(r: Reader, pem: Option<Text>, sources: seq<Source>, bundled: Option<seq<Anchor>>, purpose: Purpose, bounds: Window)
    ensures ResolveTrust(r, pem, sources, bundled, purpose, bounds).Ok? <==>
            (pem.Some? ==> r.pem(pem.value).Some?) && forall s :: s in sources ==> SourceReadable(r, s)
  {
    hide ReadSource, SourceReadable, Gather;
    var custom := CustomAnchors(r, pem, purpose, bounds);
    if custom.Ok? {
      GatherReadable(r, custom.value, sources, purpose, bounds);
    }
  }

  lemma {:induction false} GatherReadable(r: Reader, custom: Option<seq<Anchor>>, sources: seq<Source>, purpose: Purpose, bounds: Window)
    ensures Gather(r, custom, sources, purpose, bounds).Ok? <==> forall s :: s in sources ==> SourceReadable(r, s)
  {
    hide ReadSource, SourceReadable;
    if sources != [] {
      var prefix, s := sources[..|sources| - 1], sources[|sources| - 1];
      assert sources == prefix + [s];
      GatherReadable(r, custom, prefix, purpose, bounds);
      ReadableMeans(r, s, purpose, bounds);
    }
  }

  /** Bundled copies of the certificate carry no window of their own. */
  ghost predicate UnboundedCopies(bundled: Option<seq<Anchor>>, c: Certificate) {
    bundled.Some? ==> forall k :: 0 <= k < |bundled.value| && bundled.value[k].certificate == c ==> bundled.value[k].window == Window(None, None)
  }

  lemma InAllInsert(r: Reader, before: seq<Source>, s: Source, after: seq<Source>, bounds: Window, c: Certificate, t: int)
    requires s.Windowed()
    ensures var fewer, more := before + after, before + [s] + after;
            && (Restricted(r, more, c) <==> Restricted(r, fewer, c) || Provides(r, s.pem, c))
            && (Supplied(r, more, c) <==> Supplied(r, fewer, c))
            && (InAllWindows(r, more, bounds, c, t) <==>
                  InAllWindows(r, fewer, bounds, c, t) && (Provides(r, s.pem, c) ==> bounds.Contains(t) && InWindow(r, s, t)))
  {
    var fewer, more := before + after, before + [s] + after;
    assert forall x :: x in more <==> x in fewer + [s];
    SameSet(r, more, fewer + [s], bounds, c, t);
    RestrictedAppend(r, fewer, s, c);
    InAllAppend(r, fewer, s, bounds, c, t);
  }

  /** One more windowed source, anywhere in the list, widens when a listed certificate is accepted exactly if it gives the
      certificate its first window, nothing of the caller's named it before, and no bundled copy was in force then. */
  lemma WidensExactly(r: Reader, pem: Option<Text>, before: seq<Source>, s: Source, after: seq<Source>, bundled: Option<seq<Anchor>>,
                      purpose: Purpose, bounds: Window, c: Certificate, t: int)
    requires s.Windowed() && ResolveTrust(r, pem, before + [s] + after, bundled, purpose, bounds).Ok?
    ensures ResolveTrust(r, pem, before + after, bundled, purpose, bounds).Ok?
    ensures var was, now := AnchorsOf(ResolveTrust(r, pem, before + after, bundled, purpose, bounds).value),
                            AnchorsOf(ResolveTrust(r, pem, before + [s] + after, bundled, purpose, bounds).value);
            (Accepts(now, c, t) && !Accepts(was, c, t)) <==>
              && Provides(r, s.pem, c) && bounds.Contains(t) && InWindow(r, s, t)
              && !Restricted(r, before + after, c) && !Supplied(r, before + after, c) && !(pem.Some? && Provides(r, pem.value, c))
              && !(bundled.Some? && Accepts(bundled.value, c, t))
  {
    var fewer, more := before + after, before + [s] + after;
    ReadableExact(r, pem, fewer, bundled, purpose, bounds);
    ReadableExact(r, pem, more, bundled, purpose, bounds);
    assert forall x :: x in fewer ==> x in more;
    hide ResolveTrust, Provides, InWindow, SourceReadable;
    AcceptanceExact(r, pem, fewer, bundled, purpose, bounds, c, t);
    AcceptanceExact(r, pem, more, bundled, purpose, bounds, c, t);
    InAllInsert(r, before, s, after, bounds, c, t);
    NotRestricted(r, fewer, bounds, c, t);
    hide Accepts, Restricted, Supplied, InAllWindows;
  }

  lemma NotRestricted(r: Reader, sources: seq<Source>, bounds: Window, c: Certificate, t: int)
    ensures !Restricted(r, sources, c) ==> InAllWindows(r, sources, bounds, c, t)
  {
  }

  /** So a windowed source never widens when an already listed certificate is accepted, bundled copies being unbounded. */
  lemma NeverWidens(r: Reader, pem: Option<Text>, before: seq<Source>, s: Source, after: seq<Source>, bundled: Option<seq<Anchor>>, purpose: Purpose,
                    bounds: Window, c: Certificate, t: int)
    requires s.Windowed() && ResolveTrust(r, pem, before + [s] + after, bundled, purpose, bounds).Ok?
    requires UnboundedCopies(bundled, c)
    ensures ResolveTrust(r, pem, before + after, bundled, purpose, bounds).Ok?
    ensures var was, now := AnchorsOf(ResolveTrust(r, pem, before + after, bundled, purpose, bounds).value),
                            AnchorsOf(ResolveTrust(r, pem, before + [s] + after, bundled, purpose, bounds).value);
            Lists(was, c) && Accepts(now, c, t) ==> Accepts(was, c, t)
  {
    hide ResolveTrust, Provides, InWindow, Accepts, Restricted, Supplied, Lists, UnboundedCopies;
    WidensExactly(r, pem, before, s, after, bundled, purpose, bounds, c, t);
    if Lists(AnchorsOf(ResolveTrust(r, pem, before + after, bundled, purpose, bounds).value), c) {
      ListedSomewhere(r, pem, before + after, bundled, purpose, bounds, c);
      BundledAlways(bundled, c, t);
    }
  }

  /** A bundled copy with a window of its own can be widened: in force until 10 as bundled, at 20 with the source. */
  lemma BoundedCopyWidens()
    ensures var r := Reader(x => false, x => true, x => Some(20), x => Some([[1]]));
            var bundled := Some([Anchor([1], ClaimSigning, Window(None, Some(10)), SmimeInterim, None)]);
            var s := Source("u", "k", None, "p", Some("20"), None);
            var was, now := ResolveTrust(r, None, [], bundled, ClaimSigning, Window(None, None)),
                            ResolveTrust(r, None, [s], bundled, ClaimSigning, Window(None, None));
            was.Ok? && now.Ok? && Lists(AnchorsOf(was.value), [1]) && !Accepts(AnchorsOf(was.value), [1], 20) && Accepts(AnchorsOf(now.value), [1], 20)
  {
    var r := Reader(x => false, x => true, x => Some(20), x => Some([[1]]));
    var a := Anchor([1], ClaimSigning, Window(None, Some(10)), SmimeInterim, None);
    var bundled := Some([a]);
    var s := Source("u", "k", None, "p", Some("20"), None);
    var open := Window(None, None);
    ReadableExact(r, None, [s], bundled, ClaimSigning, open);
    var none: seq<Source> := [];
    assert none + [s] + none == [s] && none + none == none;
    WidensExactly(r, None, none, s, none, bundled, ClaimSigning, open, [1], 20);
    assert !Accepts(bundled.value, [1], 20) && bundled.value[0].certificate == [1];
    assert Provides(r, s.pem, [1]) && InWindow(r, s, 20);
    assert AnchorsOf(ResolveTrust(r, None, [], bundled, ClaimSigning, open).value) == [a];
  }

  lemma BundledAlways(bundled: Option<seq<Anchor>>, c: Certificate, t: int)
    requires UnboundedCopies(bundled, c)
    ensures bundled.Some? && Lists(bundled.value, c) ==> Accepts(bundled.value, c, t)
  {
    if bundled.Some? && Lists(bundled.value, c) {
      var k :| 0 <= k < |bundled.value| && bundled.value[k].certificate == c;
      assert bundled.value[k].window.Contains(t);
    }
  }

  /** A listed certificate was bundled, supplied or restricted. */
  lemma ListedSomewhere(r: Reader, pem: Option<Text>, sources: seq<Source>, bundled: Option<seq<Anchor>>, purpose: Purpose, bounds: Window, c: Certificate)
    requires ResolveTrust(r, pem, sources, bundled, purpose, bounds).Ok?
    requires Lists(AnchorsOf(ResolveTrust(r, pem, sources, bundled, purpose, bounds).value), c)
    ensures (bundled.Some? && Lists(bundled.value, c)) || Restricted(r, sources, c) || Supplied(r, sources, c) || (pem.Some? && Provides(r, pem.value, c))
  {
    hide CustomAnchors, Gather, Provides, Restricted, Supplied, Retain, Lists;
    var custom := CustomAnchors(r, pem, purpose, bounds).value;
    var g := Gather(r, custom, sources, purpose, bounds).value;
    CustomLists(r, pem, purpose, bounds, c);
    GatherLists(r, custom, sources, purpose, bounds, c);
    var base := if bundled.Some? then bundled.value else [];
    ListsConcat(base, g.Custom(), c);
    RetainLists(base + g.Custom(), g.windowed, c);
    ListsConcat(Retain(base + g.Custom(), g.windowed), g.windowed, c);
    ListsNothing(c);
  }

  lemma ListsNothing(c: Certificate)
    ensures !Lists([], c)
  {
  }

  lemma ListsConcat(a: seq<Anchor>, b: seq<Anchor>, c: Certificate)
    ensures Lists(a + b, c) ==> Lists(a, c) || Lists(b, c)
  {
    if Lists(a + b, c) {
      var k :| 0 <= k < |a + b| && (a + b)[k].certificate == c;
      assert k < |a| ==> a[k].certificate == c;
      assert k >= |a| ==> b[k - |a|].certificate == c;
    }
  }

  lemma {:induction false} RetainLists(anchors: seq<Anchor>, ws: seq<Anchor>, c: Certificate)
    ensures Lists(Retain(anchors, ws), c) ==> Lists(anchors, c)
  {
    if anchors != [] {
      hide Find;
      var prefix, a := anchors[..|anchors| - 1], anchors[|anchors| - 1];
      assert anchors == prefix + [a];
      RetainLists(prefix, ws, c);
      ListsAppended(prefix, a, c);
      ListsAppended(Retain(prefix, ws), a, c);
      assert Retain(prefix, ws) + [] == Retain(prefix, ws);
    }
  }

  lemma CustomLists(r: Reader, pem: Option<Text>, purpose: Purpose, bounds: Window, c: Certificate)
    requires CustomAnchors(r, pem, purpose, bounds).Ok?
    ensures var custom := CustomAnchors(r, pem, purpose, bounds).value;
            Lists(if custom.Some? then custom.value else [], c) ==> pem.Some? && Provides(r, pem.value, c)
  {
    hide FromPem, Provides;
    if pem.Some? {
      FromPemMeans(r, pem.value, Anchor([], purpose, bounds, if purpose.CawgIdentity? then CallerSupplied else SmimeInterim, None), c);
    }
  }

  lemma {:induction false} GatherLists(r: Reader, custom: Option<seq<Anchor>>, sources: seq<Source>, purpose: Purpose, bounds: Window, c: Certificate)
    requires Gather(r, custom, sources, purpose, bounds).Ok?
    ensures var g := Gather(r, custom, sources, purpose, bounds).value;
            && (Lists(g.Custom(), c) ==> Lists(if custom.Some? then custom.value else [], c) || Supplied(r, sources, c))
            && (Lists(g.windowed, c) <==> Restricted(r, sources, c))
  {
    hide ReadSource, InstallAll, Provides, Lists, Restricted, Supplied;
    GatherHolds(r, custom, sources, purpose, bounds, c, 0);
    if sources != [] {
      var prefix, s := sources[..|sources| - 1], sources[|sources| - 1];
      assert sources == prefix + [s];
      GatherLists(r, custom, prefix, purpose, bounds, c);
      RestrictedAppend(r, prefix, s, c);
      ReadSourceMeans(r, s, purpose, bounds, c, 0);
      var g := Gather(r, custom, prefix, purpose, bounds).value;
      ListsConcat(g.Custom(), ReadSource(r, s, purpose, bounds).value, c);
    }
  }

  /** Appending configured anchors only adds: what they accept is accepted, and nothing accepted before is lost. */
  lemma ExtendAdds(resolved: Option<Resolved>, extra: seq<Anchor>, c: Certificate, t: int)
    ensures Accepts(AnchorsOf(ExtendTrust(resolved, extra)), c, t) <==> Accepts(AnchorsOf(resolved), c, t) || Accepts(extra, c, t)
  {
    AcceptsAppend(AnchorsOf(resolved), extra, c, t);
  }

  // ---- Where anchors come from ------------------------------------------------------------------------------

  /** An anchor of the caller's bundle: for the purpose asked, in force in the bounds, with no source. */
  predicate OfBundle(r: Reader, pem: Option<Text>, purpose: Purpose, bounds: Window, a: Anchor) {
    && pem.Some? && Provides(r, pem.value, a.certificate) && a.purpose == purpose && a.window == bounds && a.source == None
    && a.cawg == (if purpose.CawgIdentity? then CallerSupplied else SmimeInterim)
  }

  /** An anchor of a source: for the purpose asked and labelled with that source. */
  predicate OfSource(r: Reader, s: Source, purpose: Purpose, a: Anchor) {
    && Provides(r, s.pem, a.certificate) && a.purpose == purpose && a.cawg == SmimeInterim
    && a.source == Some(Origin(s.uri, s.kind, s.identifier))
  }

  ghost predicate OfSources(r: Reader, sources: seq<Source>, purpose: Purpose, a: Anchor) {
    exists i :: 0 <= i < |sources| && OfSource(r, sources[i], purpose, a)
  }

  lemma ReadSourceLabels(r: Reader, s: Source, purpose: Purpose, bounds: Window, k: nat)
    requires ReadSource(r, s, purpose, bounds).Ok? && k < |ReadSource(r, s, purpose, bounds).value|
    ensures OfSource(r, s, purpose, ReadSource(r, s, purpose, bounds).value[k])
  {
  }

  lemma OfSourcesMore(r: Reader, sources: seq<Source>, s: Source, purpose: Purpose, a: Anchor)
    ensures OfSources(r, sources, purpose, a) ==> OfSources(r, sources + [s], purpose, a)
    ensures OfSource(r, s, purpose, a) ==> OfSources(r, sources + [s], purpose, a)
  {
    hide OfSource;
    var all := sources + [s];
    assert all[|sources|] == s;
    if OfSources(r, sources, purpose, a) {
      var i :| 0 <= i < |sources| && OfSource(r, sources[i], purpose, a);
      assert all[i] == sources[i];
    }
  }

  /** Installing keeps labels: an entry is an old one or a new one, but for its window. */
  lemma {:induction false} InstalledLabels(ws: seq<Anchor>, anchors: seq<Anchor>, k: nat)
    requires k < |InstallAll(ws, anchors)|
    ensures var a := InstallAll(ws, anchors)[k];
            || (exists i :: 0 <= i < |ws| && ws[i].(window := a.window) == a)
            || (exists i :: 0 <= i < |anchors| && anchors[i].(window := a.window) == a)
  {
    if anchors == [] {
      assert ws[k].(window := ws[k].window) == ws[k];
    } else {
      hide Find, Intersect;
      var prefix, last := anchors[..|anchors| - 1], anchors[|anchors| - 1];
      var before, a := InstallAll(ws, prefix), InstallAll(ws, anchors)[k];
      if k < |before| {
        InstalledLabels(ws, prefix, k);
        assert before[k].(window := a.window) == a;
        if i :| 0 <= i < |ws| && ws[i].(window := before[k].window) == before[k] {
          assert ws[i].(window := a.window) == a;
        } else {
          var i :| 0 <= i < |prefix| && prefix[i].(window := before[k].window) == before[k];
          assert anchors[i].(window := a.window) == a;
        }
      } else {
        assert anchors[|anchors| - 1].(window := a.window) == a;
      }
    }
  }

  ghost predicate Labelled(r: Reader, pem: Option<Text>, sources: seq<Source>, purpose: Purpose, bounds: Window, g: Gathered) {
    && (forall k :: 0 <= k < |g.Custom()| ==>
          OfBundle(r, pem, purpose, bounds, g.Custom()[k]) || OfSources(r, sources, purpose, g.Custom()[k]))
    && forall k :: 0 <= k < |g.windowed| ==> OfSources(r, sources, purpose, g.windowed[k])
  }

  lemma SameLabel(r: Reader, sources: seq<Source>, purpose: Purpose, a: Anchor, b: Anchor)
    requires a.(window := b.window) == b && OfSources(r, sources, purpose, a)
    ensures OfSources(r, sources, purpose, b)
  {
    var i :| 0 <= i < |sources| && OfSource(r, sources[i], purpose, a);
    assert OfSource(r, sources[i], purpose, b);
  }

  lemma AddSourceLabels(r: Reader, pem: Option<Text>, sources: seq<Source>, s: Source, purpose: Purpose, bounds: Window, g: Gathered)
    requires Labelled(r, pem, sources, purpose, bounds, g) && ReadSource(r, s, purpose, bounds).Ok?
    ensures Labelled(r, pem, sources + [s], purpose, bounds, AddSource(g, s, ReadSource(r, s, purpose, bounds).value))
  {
    hide ReadSource, InstallAll, OfBundle, OfSources, OfSource;
    var anchors := ReadSource(r, s, purpose, bounds).value;
    var next := AddSource(g, s, anchors);
    forall k | 0 <= k < |anchors| ensures OfSources(r, sources + [s], purpose, anchors[k]) {
      ReadSourceLabels(r, s, purpose, bounds, k);
      OfSourcesMore(r, sources, s, purpose, anchors[k]);
    }
    forall k | 0 <= k < |g.Custom()| ensures OfSources(r, sources, purpose, g.Custom()[k]) ==> OfSources(r, sources + [s], purpose, g.Custom()[k]) {
      OfSourcesMore(r, sources, s, purpose, g.Custom()[k]);
    }
    forall k | 0 <= k < |g.windowed| ensures OfSources(r, sources + [s], purpose, g.windowed[k]) {
      OfSourcesMore(r, sources, s, purpose, g.windowed[k]);
    }
    forall k | 0 <= k < |next.Custom()|
      ensures OfBundle(r, pem, purpose, bounds, next.Custom()[k]) || OfSources(r, sources + [s], purpose, next.Custom()[k])
    {
      if k < |g.Custom()| {
        assert next.Custom()[k] == g.Custom()[k];
      } else {
        assert next.Custom()[k] == anchors[k - |g.Custom()|];
      }
    }
    if s.Windowed() {
      forall k | 0 <= k < |next.windowed| ensures OfSources(r, sources + [s], purpose, next.windowed[k]) {
        InstalledLabels(g.windowed, anchors, k);
        var a := next.windowed[k];
        if i :| 0 <= i < |g.windowed| && g.windowed[i].(window := a.window) == a {
          SameLabel(r, sources + [s], purpose, g.windowed[i], a);
        } else {
          var i :| 0 <= i < |anchors| && anchors[i].(window := a.window) == a;
          SameLabel(r, sources + [s], purpose, anchors[i], a);
        }
      }
    }
  }

  lemma {:induction false} GatherLabels(r: Reader, pem: Option<Text>, custom: Option<seq<Anchor>>, sources: seq<Source>, purpose: Purpose, bounds: Window)
    requires CustomAnchors(r, pem, purpose, bounds) == Ok(custom) && Gather(r, custom, sources, purpose, bounds).Ok?
    ensures Labelled(r, pem, sources, purpose, bounds, Gather(r, custom, sources, purpose, bounds).value)
  {
    if sources != [] {
      hide ReadSource, CustomAnchors, Labelled, AddSource;
      var prefix, s := sources[..|sources| - 1], sources[|sources| - 1];
      assert sources == prefix + [s];
      GatherLabels(r, pem, custom, prefix, purpose, bounds);
      AddSourceLabels(r, pem, prefix, s, purpose, bounds, Gather(r, custom, prefix, purpose, bounds).value);
    }
  }

  lemma {:induction false} RetainedFrom(anchors: seq<Anchor>, ws: seq<Anchor>, k: nat)
    requires k < |Retain(anchors, ws)|
    ensures Retain(anchors, ws)[k] in anchors
  {
    hide Find;
    if anchors != [] && k < |Retain(anchors[..|anchors| - 1], ws)| {
      RetainedFrom(anchors[..|anchors| - 1], ws, k);
    }
  }

  /** Every anchor of a resolved store is a bundled one as it was, one of the caller's bundle in the bounds, or one of a
      source labelled with that source, all for the purpose asked; without sources the store is what was given. */
  lemma AnchorsSourced(r: Reader, pem: Option<Text>, sources: seq<Source>, bundled: Option<seq<Anchor>>, purpose: Purpose, bounds: Window)
    requires ResolveTrust(r, pem, sources, bundled, purpose, bounds).Ok?
    ensures var store := ResolveTrust(r, pem, sources, bundled, purpose, bounds).value;
            && (forall k :: 0 <= k < |AnchorsOf(store)| ==>
                  var a := AnchorsOf(store)[k];
                  || (bundled.Some? && a in bundled.value)
                  || OfBundle(r, pem, purpose, bounds, a)
                  || OfSources(r, sources, purpose, a))
            && (pem.None? && sources == [] ==> store == if bundled.Some? then Some(Bundled(bundled.value)) else None)
            && (pem.Some? ==> store.Some? && store.value.Owned?)
  {
    hide ReadSource, InstallAll, OfBundle, OfSources;
    var custom := CustomAnchors(r, pem, purpose, bounds).value;
    GatherLabels(r, pem, custom, sources, purpose, bounds);
    GatherKeepsCustom(r, custom, sources, purpose, bounds);
    var g := Gather(r, custom, sources, purpose, bounds).value;
    var base := if bundled.Some? then bundled.value else [];
    forall k | 0 <= k < |Retain(base + g.Custom(), g.windowed)| ensures Retain(base + g.Custom(), g.windowed)[k] in base + g.Custom() {
      RetainedFrom(base + g.Custom(), g.windowed, k);
    }
    hide Gather, Retain, CustomAnchors;
    var all := AnchorsOf(Merge(bundled, g));
    forall k | 0 <= k < |all|
      ensures (bundled.Some? && all[k] in bundled.value) || OfBundle(r, pem, purpose, bounds, all[k]) || OfSources(r, sources, purpose, all[k])
    {
      var a := all[k];
      assert a in base + g.Custom() || a in g.windowed;
      if a in g.Custom() {
        var i :| 0 <= i < |g.Custom()| && g.Custom()[i] == a;
      } else if a in g.windowed {
        var i :| 0 <= i < |g.windowed| && g.windowed[i] == a;
      }
    }
  }

  lemma {:induction false} GatherKeepsCustom(r: Reader, custom: Option<seq<Anchor>>, sources: seq<Source>, purpose: Purpose, bounds: Window)
    requires Gather(r, custom, sources, purpose, bounds).Ok?
    ensures custom.Some? ==> Gather(r, custom, sources, purpose, bounds).value.custom.Some?
  {
    hide ReadSource, InstallAll;
    if sources != [] {
      GatherKeepsCustom(r, custom, sources[..|sources| - 1], purpose, bounds);
    }
  }
}
