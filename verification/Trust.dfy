/** Trust windows: one purpose's trust store from a bundled snapshot, a caller's bundle and caller sources with windows. */
module Trust {
  import opened Octets
  import opened Texts

  type Certificate = seq<byte>

  /** Inclusive bounds in instants; an absent bound is open. */
  datatype Window = Window(notBefore: Option<int>, notAfter: Option<int>) {
    predicate Contains(t: int) {
      (notBefore.Some? ==> notBefore.value <= t) && (notAfter.Some? ==> t <= notAfter.value)
    }
  }

  datatype Purpose = ClaimSigning | TimeStamping | CawgIdentity
  datatype CawgSource = SmimeInterim | EncypherVerifiedOrganizations | CallerSupplied
  datatype Origin = Origin(uri: Text, kind: Text, identifier: Option<Text>)

  datatype Anchor = Anchor(certificate: Certificate, purpose: Purpose, window: Window, cawg: CawgSource, source: Option<Origin>)

  /** A trust list a caller supplies, with an optional window of its own. */
  datatype Source = Source(uri: Text, kind: Text, identifier: Option<Text>, pem: Text, notBefore: Option<Text>, notAfter: Option<Text>) {
    predicate Windowed() {
      notBefore.Some? || notAfter.Some?
    }
  }

  datatype TrustError = BadPem | BadUri | EmptyKind | EmptyIdentifier | BadInstant | Inverted

  /** Text handling, instants and PEM, none of which is modelled further. A readable bundle holds at least one certificate. */
  datatype Reader = Reader(
    blank: Text -> bool,
    validUri: Text -> bool,
    instant: Text -> Option<int>,
    pem: Text -> Option<seq<Certificate>>)

  type Outcome<T> = Result<T, TrustError>

  // ---- Windows -----------------------------------------------------------------------------------

  function Later(a: Option<int>, b: Option<int>): Option<int> {
    if a.None? then b else if b.None? then a else Some(if a.value < b.value then b.value else a.value)
  }

  function Earlier(a: Option<int>, b: Option<int>): Option<int> {
    if a.None? then b else if b.None? then a else Some(if a.value < b.value then a.value else b.value)
  }

  function Intersect(a: Window, b: Window): Window {
    Window(Later(a.notBefore, b.notBefore), Earlier(a.notAfter, b.notAfter))
  }

  function Instant(r: Reader, text: Option<Text>): Outcome<Option<int>> {
    if text.None? then Ok(None)
    else
      var t := r.instant(text.value);
      if t.None? then Err(BadInstant) else Ok(t)
  }

  /** The window a source asks for. */
  function OwnWindow(r: Reader, s: Source): Outcome<Window> {
    var start :- Instant(r, s.notBefore);
    var end :- Instant(r, s.notAfter);
    if start.Some? && end.Some? && start.value > end.value then Err(Inverted) else Ok(Window(start, end))
  }

  // ---- Sources -----------------------------------------------------------------------------------------

  function FromPem(r: Reader, pem: Text, a: Anchor): Outcome<seq<Anchor>> {
    var certificates := r.pem(pem);
    if certificates.None? then Err(BadPem)
    else Ok(seq(|certificates.value|, i requires 0 <= i < |certificates.value| => a.(certificate := certificates.value[i])))
  }

  function CustomAnchors(r: Reader, pem: Option<Text>, purpose: Purpose, bounds: Window): Outcome<Option<seq<Anchor>>> {
    if pem.None? then Ok(None)
    else
      var anchors :- FromPem(r, pem.value, Anchor([], purpose, bounds, if purpose.CawgIdentity? then CallerSupplied else SmimeInterim, None));
      Ok(Some(anchors))
  }

  /** A source's anchors, in force only where its own window and the bounds for all supplied anchors overlap. */
  function ReadSource(r: Reader, s: Source, purpose: Purpose, bounds: Window): Outcome<seq<Anchor>> {
    if r.blank(s.uri) || !r.validUri(s.uri) then Err(BadUri)
    else if r.blank(s.kind) then Err(EmptyKind)
    else if s.identifier.Some? && r.blank(s.identifier.value) then Err(EmptyIdentifier)
    else
      var own :- OwnWindow(r, s);
      FromPem(r, s.pem, Anchor([], purpose, Intersect(own, bounds), SmimeInterim, Some(Origin(s.uri, s.kind, s.identifier))))
  }

  /** First position of a certificate. */
  function Find(anchors: seq<Anchor>, c: Certificate): (k: nat)
    ensures k <= |anchors|
    ensures k < |anchors| ==> anchors[k].certificate == c
    ensures forall i :: 0 <= i < k ==> anchors[i].certificate != c
    decreases |anchors|
  {
    if anchors == [] then 0
    else if anchors[0].certificate == c then 0
    else
      var rest := Find(anchors[1..], c);
      assert forall i :: 1 <= i < rest + 1 ==> anchors[i] == anchors[1..][i - 1];
      rest + 1
  }

  /** Narrow the certificate's entry, or add one. */
  function Install(windowed: seq<Anchor>, a: Anchor): seq<Anchor> {
    var k := Find(windowed, a.certificate);
    if k < |windowed| then windowed[k := windowed[k].(window := Intersect(windowed[k].window, a.window))] else windowed + [a]
  }

  function InstallAll(windowed: seq<Anchor>, anchors: seq<Anchor>): seq<Anchor> {
    if anchors == [] then windowed else Install(InstallAll(windowed, anchors[..|anchors| - 1]), anchors[|anchors| - 1])
  }

  /** The caller's unwindowed anchors and the windowed ones. */
  datatype Gathered = Gathered(custom: Option<seq<Anchor>>, windowed: seq<Anchor>) {
    function Custom(): seq<Anchor> {
      if custom.Some? then custom.value else []
    }
  }

  function AddSource(g: Gathered, s: Source, anchors: seq<Anchor>): Gathered {
    if s.Windowed() then g.(windowed := InstallAll(g.windowed, anchors)) else g.(custom := Some(g.Custom() + anchors))
  }

  function Gather(r: Reader, custom: Option<seq<Anchor>>, sources: seq<Source>, purpose: Purpose, bounds: Window): Outcome<Gathered> {
    if sources == [] then Ok(Gathered(custom, []))
    else
      var g :- Gather(r, custom, sources[..|sources| - 1], purpose, bounds);
      var anchors :- ReadSource(r, sources[|sources| - 1], purpose, bounds);
      Ok(AddSource(g, sources[|sources| - 1], anchors))
  }

  // ---- Merging ---------------------------------------------------------------------------------------------

  /** The anchors whose certificate has no windowed entry. */
  function Retain(anchors: seq<Anchor>, windowed: seq<Anchor>): seq<Anchor> {
    if anchors == [] then []
    else
      var a := anchors[|anchors| - 1];
      Retain(anchors[..|anchors| - 1], windowed) + if Find(windowed, a.certificate) < |windowed| then [] else [a]
  }

  datatype Resolved = Bundled(anchors: seq<Anchor>) | Owned(anchors: seq<Anchor>)

  function Merge(bundled: Option<seq<Anchor>>, g: Gathered): Option<Resolved> {
    var base := if bundled.Some? then bundled.value else [];
    if g.windowed != [] then Some(Owned(Retain(base + g.Custom(), g.windowed) + g.windowed))
    else match (bundled, g.custom)
      case (None, None) => None
      case (Some(trust), None) => Some(Bundled(trust))
      case (_, Some(custom)) => Some(Owned(base + custom))
  }

  function ResolveTrust(r: Reader, pem: Option<Text>, sources: seq<Source>, bundled: Option<seq<Anchor>>, purpose: Purpose, bounds: Window)
    : Outcome<Option<Resolved>>
  {
    var custom :- CustomAnchors(r, pem, purpose, bounds);
    var g :- Gather(r, custom, sources, purpose, bounds);
    Ok(Merge(bundled, g))
  }

  /** Append configured anchors to a resolved store. */
  function ExtendTrust(resolved: Option<Resolved>, extra: seq<Anchor>): Option<Resolved> {
    if extra == [] then resolved
    else Some(Owned((if resolved.Some? then resolved.value.anchors else []) + extra))
  }
}
