/** The soft-binding resolution protocol: what a session asks for next, given any answer. */
module Resolver {
  import opened Octets
  import opened Texts

  const MAX_SERVICE_JSON_BYTES: nat := 0x10_0000
  const MAX_MANIFEST_BYTES: nat := 0x400_0000
  const DEFAULT_MAX_RESULTS: nat := 10
  const MAX_RESULTS: nat := 100

  /** A parsed URL. Editing its path or query leaves its origin and credentials alone. */
  datatype Url = Url(origin: Text, username: Text, password: Option<Text>, isBase: bool, path: Text, query: Option<Text>, fragment: Option<Text>)

  datatype Consent = UploadAsset | DiscloseReference

  datatype Query =
    | BindingGet(alg: Text, value: Text)
    | BindingPost(alg: Text, value: Text)
    | Content(optAlg: Option<Text>, hintAlg: Option<Text>, hintValue: Option<Text>, consent: Consent)
    | Reference(optAlg: Option<Text>, hintAlg: Option<Text>, hintValue: Option<Text>, referenceUrl: Text, assetLength: u64,
                assetType: Option<Text>, region: Option<seq<byte>>, consent: Consent)
  {
    /** The algorithms the service must support. */
    function Selected(): seq<Text> {
      match this
      case BindingGet(alg, _) => [alg]
      case BindingPost(alg, _) => [alg]
      case _ => (if optAlg.Some? then [optAlg.value] else []) + (if hintAlg.Some? then [hintAlg.value] else [])
    }
  }

  datatype Discovery = Discovery(apiEndpoint: Text, capabilitiesEndpoint: Option<Text>, statusEndpoint: Option<Text>)
  datatype Algorithms = Algorithms(watermarks: seq<Text>, fingerprints: seq<Text>)
  datatype Match = Match(manifestId: Text, endpoint: Option<Text>, score: Option<byte>)
  datatype Recovered = Recovered(matched: Match, store: seq<byte>, report: seq<byte>, receipt: Option<seq<byte>>)

  /** A field of a JSON object. Regions are JSON already. */
  datatype Field = TextField(text: Text) | NumberField(number: nat) | JsonField(json: seq<byte>)

  datatype Verb = Get | Post
  datatype Body = NoBody | Asset(bytes: seq<byte>) | Json(bytes: seq<byte>)
  datatype Kind = Discover | Capabilities | Status | SupportedAlgorithms | Matching | Manifest(matched: Match, repository: Url) | Receipt(index: nat)
  datatype Request = Request(verb: Verb, url: Url, contentType: Option<Text>, accept: Text, body: Body, maxResponse: nat, kind: Kind)

  const JSON := "application/json"
  const C2PA := "application/c2pa"

  datatype ResolverError =
    | BadOptions | Offline | BadMime | BadQuery | BadOrigin | NoOrigins | BadRoot | TooManyResults
    | NoPending | BadFinalUrl | Redirected | TooLarge | BadJson | BadEndpoint | NotAllowed | NotAdvertised | NoStatusEndpoint
    | UnknownAlgorithm | NoApi | TooManyMatches | EmptyManifestId | BadScore | Unverified
    | StillPending | Incomplete | TransportFailed

  /** URL and JSON handling and manifest verification, none of which is modelled further. */
  datatype World = World(
    blank: Text -> bool,
    parseUrl: Text -> Option<Url>,
    urlText: Url -> Text,
    network: Url -> bool,
    https: Url -> bool,
    join: (Url, Text) -> Option<Url>,
    appendPair: (Option<Text>, Text, Text) -> Option<Text>,
    pushSegments: (Text, seq<Text>) -> Text,
    decimal: nat -> Text,
    objectJson: seq<(Text, Field)> -> seq<byte>,
    parseDiscovery: seq<byte> -> Option<Discovery>,
    parseCapabilities: seq<byte> -> Option<seq<Text>>,
    parseStatus: seq<byte> -> Option<seq<byte>>,
    parseAlgorithms: seq<byte> -> Option<Algorithms>,
    parseMatches: seq<byte> -> Option<seq<Match>>,
    parseReceipt: seq<byte> -> Option<seq<byte>>,
    verify: (seq<byte>, seq<byte>, Text) -> Option<seq<byte>>)

  /** What the verification options say: whether they validate, and whether they allow going online. */
  datatype Permission = Permission(valid: bool, online: bool)

  datatype Options = Options(allowedOrigins: seq<Text>, maxResults: nat, fetchStatus: bool, fetchReceipts: bool)

  /** What a session is created with and never changes. */
  datatype Config = Config(world: World, asset: seq<byte>, mime: Text, query: Query, fetchStatus: bool, fetchReceipts: bool,
                           root: Url, allowed: seq<Text>, maxResults: nat)

  datatype Session = Session(
    api: Option<Url>,
    discovery: Option<Discovery>,
    capabilities: Option<seq<Text>>,
    algorithms: Option<Algorithms>,
    status: Option<seq<byte>>,
    matches: seq<Match>,
    recovered: seq<Recovered>,
    pending: Option<Request>)

  type Checked<T> = Result<T, ResolverError>

  // ---- Queries --------------------------------------------------------------------------------

  predicate OptionalFieldsOk(w: World, alg: Option<Text>, hintAlg: Option<Text>, hintValue: Option<Text>) {
    && (alg.Some? ==> !w.blank(alg.value))
    && (hintAlg.Some? <==> hintValue.Some?)
    && (hintAlg.Some? && hintValue.Some? ==> !w.blank(hintAlg.value) && !w.blank(hintValue.value))
  }

  /** Routes that disclose something need the consent for exactly that. */
  predicate QueryOk(w: World, q: Query) {
    match q
    case BindingGet(alg, value) => !w.blank(alg) && !w.blank(value)
    case BindingPost(alg, value) => !w.blank(alg) && !w.blank(value)
    case Content(alg, hintAlg, hintValue, consent) => consent.UploadAsset? && OptionalFieldsOk(w, alg, hintAlg, hintValue)
    case Reference(alg, hintAlg, hintValue, referenceUrl, assetLength, _, _, consent) =>
      && consent.DiscloseReference? && OptionalFieldsOk(w, alg, hintAlg, hintValue) && assetLength > 0
      && w.parseUrl(referenceUrl).Some? && w.https(w.parseUrl(referenceUrl).value)
  }

  // ---- Endpoints ---------------------------------------------------------------------------------

  predicate Allowed(allowed: seq<Text>, u: Url) {
    u.username == "" && u.password.None? && u.origin in allowed
  }

  function RequireAllowed(c: Config, u: Url): Checked<Url> {
    if Allowed(c.allowed, u) then Ok(u) else Err(NotAllowed)
  }

  function Join(c: Config, base: Url, endpoint: Text): Checked<Url> {
    var u := c.world.join(base, endpoint);
    if u.None? then Err(BadEndpoint) else Ok(u.value)
  }

  function Resolve(c: Config, base: Url, endpoint: Text): Checked<Url> {
    var u :- Join(c, base, endpoint);
    RequireAllowed(c, u)
  }

  function Directory(u: Url): Url {
    var path := if u.path != "" && u.path[|u.path| - 1] == '/' then u.path else u.path + "/";
    u.(path := path, query := None, fragment := None)
  }

  function ManifestEndpoint(c: Config, repository: Url, id: Text): Checked<Url> {
    if !repository.isBase then Err(BadEndpoint)
    else Ok(repository.(path := c.world.pushSegments(repository.path, ["manifests", id])))
  }

  function ReceiptEndpoint(c: Config, repository: Url, id: Text): Checked<Url> {
    if !repository.isBase then Err(BadEndpoint)
    else Ok(repository.(path := c.world.pushSegments(repository.path, ["manifests", id, "receipts"])))
  }

  function WithPair(c: Config, u: Url, name: Text, value: Text): Url {
    u.(query := c.world.appendPair(u.query, name, value))
  }

  function WithOptional(c: Config, u: Url, name: Text, value: Option<Text>): Url {
    if value.Some? then WithPair(c, u, name, value.value) else u
  }

  function JsonGet(u: Url, kind: Kind): Request {
    Request(Get, u, None, JSON, NoBody, MAX_SERVICE_JSON_BYTES, kind)
  }

  // ---- Creation -----------------------------------------------------------------------------------

  function AllowedOrigins(w: World, values: seq<Text>, origins: seq<Text>): Checked<seq<Text>>
    decreases |values|
  {
    if values == [] then Ok(origins)
    else
      var u := w.parseUrl(values[0]);
      if u.None? || !w.network(u.value) then Err(BadOrigin)
      else
        var origin := u.value.origin;
        if origin == "null" || (w.urlText(u.value) != origin && w.urlText(u.value) != origin + "/") then Err(BadOrigin)
        else AllowedOrigins(w, values[1..], if origin in origins then origins else origins + [origin])
  }

  function ResultLimit(requested: nat): Checked<nat> {
    if requested == 0 then Ok(DEFAULT_MAX_RESULTS) else if requested <= MAX_RESULTS then Ok(requested) else Err(TooManyResults)
  }

  const WELL_KNOWN := "/.well-known/c2pa-soft-binding-resolution"

  function Create(w: World, asset: seq<byte>, mime: Text, permission: Permission, serviceRoot: Text, q: Query, o: Options): Checked<(Config, Session)> {
    if !permission.valid then Err(BadOptions)
    else if !permission.online then Err(Offline)
    else if w.blank(mime) then Err(BadMime)
    else if !QueryOk(w, q) then Err(BadQuery)
    else
      var allowed :- AllowedOrigins(w, o.allowedOrigins, []);
      if allowed == [] then Err(NoOrigins)
      else
        var root := w.parseUrl(serviceRoot);
        if root.None? then Err(BadRoot)
        else if !Allowed(allowed, root.value) then Err(NotAllowed)
        else
          var maxResults :- ResultLimit(o.maxResults);
          var first := root.value.(path := WELL_KNOWN, query := None, fragment := None);
          Ok((Config(w, asset, mime, q, o.fetchStatus, o.fetchReceipts, root.value, allowed, maxResults),
              Session(None, None, None, None, None, [], [], Some(JsonGet(first, Discover)))))
  }

  // ---- Answers ---------------------------------------------------------------------------------------

  /** A session after an answer, and how the answer was taken. */
  type Step = (Session, Checked<()>)

  function Fail(s: Session, e: ResolverError): Step {
    (s, Err(e))
  }

  function Ask(s: Session, r: Checked<Request>): Step {
    if r.Err? then Fail(s, r.error) else (s.(pending := Some(r.value)), Ok(()))
  }

  function CapabilitiesUrl(c: Config, api: Url, d: Discovery): Checked<Url> {
    var u :- (if d.capabilitiesEndpoint.Some? then Resolve(c, c.root, d.capabilitiesEndpoint.value) else Join(c, api, "services/capabilities"));
    RequireAllowed(c, u)
  }

  function AcceptDiscovery(c: Config, s: Session, bytes: seq<byte>): Step {
    var d := c.world.parseDiscovery(bytes);
    if d.None? then Fail(s, BadJson)
    else
      var base := Resolve(c, c.root, d.value.apiEndpoint);
      if base.Err? then Fail(s, base.error)
      else
        var api := Directory(base.value);
        var next := CapabilitiesUrl(c, api, d.value);
        if next.Err? then Fail(s, next.error)
        else (s.(api := Some(api), discovery := Some(d.value), pending := Some(JsonGet(next.value, Capabilities))), Ok(()))
  }

  function AlgorithmsRequest(c: Config, s: Session): Checked<Request> {
    if s.api.None? then Err(NoApi)
    else
      var u :- Join(c, s.api.value, "services/supportedAlgorithms");
      var u1 :- RequireAllowed(c, u);
      Ok(JsonGet(u1, SupportedAlgorithms))
  }

  function StatusRequest(c: Config, s: Session): Checked<Request> {
    if s.discovery.None? || s.discovery.value.statusEndpoint.None? then Err(NoStatusEndpoint)
    else
      var u :- Resolve(c, c.root, s.discovery.value.statusEndpoint.value);
      Ok(JsonGet(u, Status))
  }

  predicate Advertised(q: Query, capabilities: seq<Text>) {
    (q.Content? ==> "queryByContent" in capabilities) && (q.Reference? ==> "queryByReference" in capabilities)
  }

  function AcceptCapabilities(c: Config, s: Session, bytes: seq<byte>): Step {
    var capabilities := c.world.parseCapabilities(bytes);
    if capabilities.None? then Fail(s, BadJson)
    else if !Advertised(c.query, capabilities.value) then Fail(s, NotAdvertised)
    else
      var s1 := s.(capabilities := capabilities);
      Ask(s1, if c.fetchStatus then StatusRequest(c, s1) else AlgorithmsRequest(c, s1))
  }

  function AcceptStatus(c: Config, s: Session, bytes: seq<byte>): Step {
    var status := c.world.parseStatus(bytes);
    if status.None? then Fail(s, BadJson) else Ask(s.(status := status), AlgorithmsRequest(c, s))
  }

  predicate Supported(a: Algorithms, selected: seq<Text>) {
    forall i :: 0 <= i < |selected| ==> selected[i] in a.watermarks || selected[i] in a.fingerprints
  }

  function Optionals(c: Config, u: Url, alg: Option<Text>, hintAlg: Option<Text>, hintValue: Option<Text>): Url {
    WithOptional(c, WithOptional(c, WithOptional(c, u, "alg", alg), "hintAlg", hintAlg), "hintValue", hintValue)
  }

  function Limited(c: Config, u: Url): Url {
    WithPair(c, u, "maxResults", c.world.decimal(c.maxResults))
  }

  function BindingJson(c: Config, alg: Text, value: Text): seq<byte> {
    c.world.objectJson([("alg", TextField(alg)), ("value", TextField(value))])
  }

  function ReferenceJson(c: Config, referenceUrl: Text, assetLength: nat, assetType: Option<Text>, region: Option<seq<byte>>): seq<byte> {
    var fields := [("referenceUrl", TextField(referenceUrl)), ("assetLength", NumberField(assetLength))];
    var typed := if assetType.Some? then fields + [("assetType", TextField(assetType.value))] else fields;
    c.world.objectJson(if region.Some? then typed + [("region", JsonField(region.value))] else typed)
  }

  /** Address, method and body of the query. Only the content route carries the asset. */
  function QueryParts(c: Config, api: Url): Checked<(Verb, Url, Body)> {
    match c.query
    case BindingGet(alg, value) =>
      var u :- Join(c, api, "matches/byBinding");
      Ok((Get, Limited(c, WithPair(c, WithPair(c, u, "value", value), "alg", alg)), NoBody))
    case BindingPost(alg, value) =>
      var u :- Join(c, api, "matches/byBinding");
      Ok((Post, Limited(c, u), Json(BindingJson(c, alg, value))))
    case Content(alg, hintAlg, hintValue, _) =>
      var u :- Join(c, api, "matches/byContent");
      Ok((Post, Limited(c, Optionals(c, u, alg, hintAlg, hintValue)), Asset(c.asset)))
    case Reference(alg, hintAlg, hintValue, referenceUrl, assetLength, assetType, region, _) =>
      var u :- Join(c, api, "matches/byReference");
      Ok((Post, Limited(c, Optionals(c, u, alg, hintAlg, hintValue)), Json(ReferenceJson(c, referenceUrl, assetLength, assetType, region))))
  }

  /** The media type of a query's body. */
  function BodyType(c: Config, body: Body): Option<Text> {
    match body case NoBody => None case Asset(_) => Some(c.mime) case Json(_) => Some(JSON)
  }

  function QueryRequest(c: Config, s: Session): Checked<Request> {
    if s.api.None? then Err(NoApi)
    else
      var (verb, u, body) :- QueryParts(c, s.api.value);
      var u1 :- RequireAllowed(c, u);
      Ok(Request(verb, u1, BodyType(c, body), JSON, body, MAX_SERVICE_JSON_BYTES, Matching))
  }

  function AcceptAlgorithms(c: Config, s: Session, bytes: seq<byte>): Step {
    var algorithms := c.world.parseAlgorithms(bytes);
    if algorithms.None? then Fail(s, BadJson)
    else if !Supported(algorithms.value, c.query.Selected()) then Fail(s, UnknownAlgorithm)
    else Ask(s.(algorithms := algorithms), QueryRequest(c, s))
  }

  /** The first defect in a list of matches. */
  function MatchesDefect(ms: seq<Match>): Option<ResolverError> {
    if ms == [] then None
    else if ms[0].manifestId == "" then Some(EmptyManifestId)
    else if ms[0].score.Some? && ms[0].score.value > 100 then Some(BadScore)
    else MatchesDefect(ms[1..])
  }

  function ManifestRequest(c: Config, s: Session, m: Match): Checked<Request> {
    if s.api.None? then Err(NoApi)
    else
      var base :- (if m.endpoint.Some? then Resolve(c, s.api.value, m.endpoint.value) else Ok(s.api.value));
      var repository := Directory(base);
      var u :- ManifestEndpoint(c, repository, m.manifestId);
      var u1 :- RequireAllowed(c, WithPair(c, u, "returnActiveManifest", "false"));
      Ok(Request(Get, u1, None, C2PA, NoBody, MAX_MANIFEST_BYTES, Manifest(m, repository)))
  }

  /** Ask for the next match's manifest, if any is left. The match is taken even when its endpoint is refused. */
  function NextManifest(c: Config, s: Session): Step {
    if s.matches == [] then (s.(pending := None), Ok(()))
    else Ask(s.(matches := s.matches[1..]), ManifestRequest(c, s, s.matches[0]))
  }

  function AcceptMatches(c: Config, s: Session, bytes: seq<byte>): Step {
    var ms := c.world.parseMatches(bytes);
    if ms.None? then Fail(s, BadJson)
    else if |ms.value| > c.maxResults then Fail(s, TooManyMatches)
    else
      var defect := MatchesDefect(ms.value);
      if defect.Some? then Fail(s, defect.value) else NextManifest(c, s.(matches := ms.value))
  }

  function ReceiptRequest(c: Config, repository: Url, m: Match, index: nat): Checked<Request> {
    var u :- ReceiptEndpoint(c, repository, m.manifestId);
    var u1 :- RequireAllowed(c, u);
    Ok(JsonGet(u1, Receipt(index)))
  }

  function AcceptManifest(c: Config, s: Session, m: Match, repository: Url, store: seq<byte>): Step {
    var report := c.world.verify(c.asset, store, c.mime);
    if report.None? then Fail(s, Unverified)
    else
      var s1 := s.(recovered := s.recovered + [Recovered(m, store, report.value, None)]);
      if c.fetchReceipts then Ask(s1, ReceiptRequest(c, repository, m, |s.recovered|)) else NextManifest(c, s1)
  }

  function AcceptReceipt(c: Config, s: Session, index: nat, bytes: seq<byte>): Step
    requires index < |s.recovered|
  {
    var receipt := c.world.parseReceipt(bytes);
    if receipt.None? then Fail(s, BadJson)
    else NextManifest(c, s.(recovered := s.recovered[index := s.recovered[index].(receipt := receipt)]))
  }

  /** A receipt that is awaited belongs to a recovered manifest. */
  predicate SessionOk(s: Session) {
    s.pending.Some? && s.pending.value.kind.Receipt? ==> s.pending.value.kind.index < |s.recovered|
  }

  datatype Answer = Answer(finalUrl: Text, bytes: seq<byte>)

  /** Take an answer to the pending request. The request is no longer pending even when the answer is refused. */
  function Accept(c: Config, s: Session, a: Answer): Step
    requires SessionOk(s)
  {
    if s.pending.None? then Fail(s, NoPending)
    else
      var request, s1 := s.pending.value, s.(pending := None);
      var u := c.world.parseUrl(a.finalUrl);
      if u.None? then Fail(s1, BadFinalUrl)
      else if u.value != request.url then Fail(s1, Redirected)
      else if |a.bytes| > request.maxResponse then Fail(s1, TooLarge)
      else match request.kind
        case Discover => AcceptDiscovery(c, s1, a.bytes)
        case Capabilities => AcceptCapabilities(c, s1, a.bytes)
        case Status => AcceptStatus(c, s1, a.bytes)
        case SupportedAlgorithms => AcceptAlgorithms(c, s1, a.bytes)
        case Matching => AcceptMatches(c, s1, a.bytes)
        case Manifest(m, repository) => AcceptManifest(c, s1, m, repository, a.bytes)
        case Receipt(index) => AcceptReceipt(c, s1, index, a.bytes)
  }

  datatype Resolution = Resolution(discovery: Discovery, capabilities: seq<Text>, algorithms: Algorithms, status: Option<seq<byte>>, recovered: seq<Recovered>)

  function Finish(s: Session): Checked<Resolution> {
    if s.pending.Some? then Err(StillPending)
    else if s.discovery.None? || s.capabilities.None? || s.algorithms.None? then Err(Incomplete)
    else Ok(Resolution(s.discovery.value, s.capabilities.value, s.algorithms.value, s.status, s.recovered))
  }
}
