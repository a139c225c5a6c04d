/** The resolver session, updating its fields as answers arrive. */
module ResolverSession {
  import opened Octets
  import opened Texts
  import opened Resolver
  import opened ResolverProtocol

  class SoftBindingSession {
    const config: Config
    var api: Option<Url>
    var discovery: Option<Discovery>
    var capabilities: Option<seq<Text>>
    var algorithms: Option<Algorithms>
    var status: Option<seq<byte>>
    var matches: seq<Match>
    var recovered: seq<Recovered>
    var pending: Option<Request>

    ghost function View(): Session
      reads this
    {
      Session(api, discovery, capabilities, algorithms, status, matches, recovered, pending)
    }

    ghost predicate Valid()
      reads this
    {
      SessionOk(View())
    }

    constructor (c: Config, first: Url)
      ensures config == c && View() == Session(None, None, None, None, None, [], [], Some(JsonGet(first, Discover)))
    {
      config := c;
      api, discovery, capabilities, algorithms, status := None, None, None, None, None;
      matches, recovered := [], [];
      pending := Some(JsonGet(first, Discover));
    }

    method Finish() returns (r: Checked<Resolution>)
      ensures r == Resolver.Finish(View())
    {
      if pending.Some? {
        return Err(StillPending);
      }
      if discovery.None? || capabilities.None? || algorithms.None? {
        return Err(Incomplete);
      }
      r := Ok(Resolution(discovery.value, capabilities.value, algorithms.value, status, recovered));
    }

    method NextRequest() returns (r: Option<Request>)
      ensures r == View().pending
    {
      r := pending;
    }

    /** Take an answer. The session keeps its validity and becomes what the protocol says, refused answers included. */
    method AcceptResponse(a: Answer) returns (r: Checked<()>)
      requires Valid()
      modifies this
      ensures Valid() && (View(), r) == Accept(config, old(View()), a)
    {
      hide Resolver.AcceptDiscovery, Resolver.AcceptCapabilities, Resolver.AcceptStatus, Resolver.AcceptAlgorithms, Resolver.AcceptMatches,
           Resolver.AcceptManifest, Resolver.AcceptReceipt;
      AcceptKeepsOk(config, View(), a);
      if pending.None? {
        return Err(NoPending);
      }
      var request := pending.value;
      pending := None;
      var u := config.world.parseUrl(a.finalUrl);
      if u.None? {
        return Err(BadFinalUrl);
      }
      if u.value != request.url {
        return Err(Redirected);
      }
      if |a.bytes| > request.maxResponse {
        return Err(TooLarge);
      }
      match request.kind {
        case Discover => r := AcceptDiscovery(a.bytes);
        case Capabilities => r := AcceptCapabilities(a.bytes);
        case Status => r := AcceptStatus(a.bytes);
        case SupportedAlgorithms => r := AcceptAlgorithms(a.bytes);
        case Matching => r := AcceptMatches(a.bytes);
        case Manifest(m, repository) => r := AcceptManifest(m, repository, a.bytes);
        case Receipt(index) => r := AcceptReceipt(index, a.bytes);
      }
    }

    method AcceptDiscovery(bytes: seq<byte>) returns (r: Checked<()>)
      modifies this
      ensures (View(), r) == Resolver.AcceptDiscovery(config, old(View()), bytes)
    {
      hide Resolve, Directory, CapabilitiesUrl;
      var d := config.world.parseDiscovery(bytes);
      if d.None? {
        return Err(BadJson);
      }
      var base :- Resolve(config, config.root, d.value.apiEndpoint);
      var endpoint := Directory(base);
      var next :- CapabilitiesUrl(config, endpoint, d.value);
      api := Some(endpoint);
      discovery := d;
      pending := Some(JsonGet(next, Capabilities));
      r := Ok(());
    }

    method AcceptCapabilities(bytes: seq<byte>) returns (r: Checked<()>)
      modifies this
      ensures (View(), r) == Resolver.AcceptCapabilities(config, old(View()), bytes)
    {
      hide Resolve, Join, Advertised;
      var c := config.world.parseCapabilities(bytes);
      if c.None? {
        return Err(BadJson);
      }
      if !Advertised(config.query, c.value) {
        return Err(NotAdvertised);
      }
      capabilities := c;
      if config.fetchStatus {
        if discovery.None? || discovery.value.statusEndpoint.None? {
          return Err(NoStatusEndpoint);
        }
        var u :- Resolve(config, config.root, discovery.value.statusEndpoint.value);
        pending := Some(JsonGet(u, Status));
        r := Ok(());
      } else {
        r := ScheduleAlgorithms();
      }
    }

    method ScheduleAlgorithms() returns (r: Checked<()>)
      modifies this`pending
      ensures (View(), r) == Ask(old(View()), AlgorithmsRequest(config, old(View())))
    {
      hide Join;
      if api.None? {
        return Err(NoApi);
      }
      var u :- Join(config, api.value, "services/supportedAlgorithms");
      var u1 :- RequireAllowed(config, u);
      pending := Some(JsonGet(u1, SupportedAlgorithms));
      r := Ok(());
    }

    method AcceptStatus(bytes: seq<byte>) returns (r: Checked<()>)
      modifies this
      ensures (View(), r) == Resolver.AcceptStatus(config, old(View()), bytes)
    {
      var parsed := config.world.parseStatus(bytes);
      if parsed.None? {
        return Err(BadJson);
      }
      status := parsed;
      r := ScheduleAlgorithms();
    }

    method AcceptAlgorithms(bytes: seq<byte>) returns (r: Checked<()>)
      modifies this
      ensures (View(), r) == Resolver.AcceptAlgorithms(config, old(View()), bytes)
    {
      hide QueryParts;
      var parsed := config.world.parseAlgorithms(bytes);
      if parsed.None? {
        return Err(BadJson);
      }
      var selected := config.query.Selected();
      for i := 0 to |selected|
        invariant forall k :: 0 <= k < i ==> selected[k] in parsed.value.watermarks || selected[k] in parsed.value.fingerprints
      {
        if selected[i] !in parsed.value.watermarks && selected[i] !in parsed.value.fingerprints {
          return Err(UnknownAlgorithm);
        }
      }
      algorithms := parsed;
      var request :- QueryRequest(config, Session(api, discovery, capabilities, algorithms, status, matches, recovered, pending));
      pending := Some(request);
      r := Ok(());
    }

    method AcceptMatches(bytes: seq<byte>) returns (r: Checked<()>)
      modifies this
      ensures (View(), r) == Resolver.AcceptMatches(config, old(View()), bytes)
    {
      hide NextManifest;
      var parsed := config.world.parseMatches(bytes);
      if parsed.None? {
        return Err(BadJson);
      }
      var ms := parsed.value;
      if |ms| > config.maxResults {
        return Err(TooManyMatches);
      }
      for i := 0 to |ms|
        invariant MatchesDefect(ms) == MatchesDefect(ms[i..])
      {
        assert ms[i..][1..] == ms[i + 1..];
        if ms[i].manifestId == "" {
          return Err(EmptyManifestId);
        }
        if ms[i].score.Some? && ms[i].score.value > 100 {
          return Err(BadScore);
        }
      }
      matches := ms;
      r := ScheduleNextManifest();
    }

    method ScheduleNextManifest() returns (r: Checked<()>)
      modifies this
      ensures (View(), r) == NextManifest(config, old(View()))
    {
      hide Resolve, Directory, ManifestEndpoint, WithPair, RequireAllowed;
      if matches == [] {
        pending := None;
        return Ok(());
      }
      var m := matches[0];
      matches := matches[1..];
      if api.None? {
        return Err(NoApi);
      }
      var base := api.value;
      if m.endpoint.Some? {
        base :- Resolve(config, api.value, m.endpoint.value);
      }
      var repository := Directory(base);
      var u :- ManifestEndpoint(config, repository, m.manifestId);
      var u1 :- RequireAllowed(config, WithPair(config, u, "returnActiveManifest", "false"));
      pending := Some(Request(Get, u1, None, C2PA, NoBody, MAX_MANIFEST_BYTES, Manifest(m, repository)));
      r := Ok(());
    }

    method AcceptManifest(m: Match, repository: Url, store: seq<byte>) returns (r: Checked<()>)
      modifies this
      ensures (View(), r) == Resolver.AcceptManifest(config, old(View()), m, repository, store)
    {
      hide NextManifest, ReceiptEndpoint, RequireAllowed;
      var report := config.world.verify(config.asset, store, config.mime);
      if report.None? {
        return Err(Unverified);
      }
      recovered := recovered + [Recovered(m, store, report.value, None)];
      if config.fetchReceipts {
        var u :- ReceiptEndpoint(config, repository, m.manifestId);
        var u1 :- RequireAllowed(config, u);
        pending := Some(JsonGet(u1, Receipt(|recovered| - 1)));
        r := Ok(());
      } else {
        r := ScheduleNextManifest();
      }
    }

    method AcceptReceipt(index: nat, bytes: seq<byte>) returns (r: Checked<()>)
      requires index < |recovered|
      modifies this
      ensures (View(), r) == Resolver.AcceptReceipt(config, old(View()), index, bytes)
    {
      hide NextManifest;
      var receipt := config.world.parseReceipt(bytes);
      if receipt.None? {
        return Err(BadJson);
      }
      recovered := recovered[index := recovered[index].(receipt := receipt)];
      r := ScheduleNextManifest();
    }
  }

  /** Put each request to the transport, stop at the first failure, and finish once nothing is pending. */
  method ConductSession(session: SoftBindingSession, transport: Transport) returns (r: Checked<Resolution>)
    requires session.Valid() && (session.config.query.Content? ==> session.config.query.consent.UploadAsset?)
    modifies session
    ensures session.Valid() && r == Conduct(session.config, old(session.View()), transport, 0)
  {
    hide Accept, Left, Finish;
    var asked := 0;
    var request := session.NextRequest();
    while request.Some?
      invariant session.Valid() && request == session.View().pending
      invariant Conduct(session.config, old(session.View()), transport, 0) == Conduct(session.config, session.View(), transport, asked)
      decreases Left(session.config, session.View())
    {
      var bytes := transport(asked, request.value);
      if bytes.None? {
        return Err(TransportFailed);
      }
      var a := Answer(session.config.world.urlText(request.value.url), bytes.value);
      AcceptOnward(session.config, session.View(), a);
      var _ :- session.AcceptResponse(a);
      asked := asked + 1;
      request := session.NextRequest();
    }
    r := session.Finish();
  }

  method CollectOrigins(w: World, values: seq<Text>) returns (r: Checked<seq<Text>>)
    ensures r == AllowedOrigins(w, values, [])
  {
    var origins := [];
    for i := 0 to |values|
      invariant AllowedOrigins(w, values, []) == AllowedOrigins(w, values[i..], origins)
    {
      assert values[i..][1..] == values[i + 1..];
      var u := w.parseUrl(values[i]);
      if u.None? || !w.network(u.value) {
        return Err(BadOrigin);
      }
      var origin := u.value.origin;
      if origin == "null" || (w.urlText(u.value) != origin && w.urlText(u.value) != origin + "/") {
        return Err(BadOrigin);
      }
      if origin !in origins {
        origins := origins + [origin];
      }
    }
    r := Ok(origins);
  }

  /** A session, or why there is none. */
  method CreateSession(w: World, asset: seq<byte>, mime: Text, permission: Permission, serviceRoot: Text, q: Query, o: Options)
    returns (r: Checked<SoftBindingSession>)
    ensures var p := Create(w, asset, mime, permission, serviceRoot, q, o);
            && (r.Ok? <==> p.Ok?) && (r.Err? ==> r.error == p.error)
            && (r.Ok? ==> fresh(r.value) && r.value.Valid() && (r.value.config, r.value.View()) == p.value)
  {
    hide QueryOk, AllowedOrigins;
    if !permission.valid {
      return Err(BadOptions);
    }
    if !permission.online {
      return Err(Offline);
    }
    if w.blank(mime) {
      return Err(BadMime);
    }
    if !QueryOk(w, q) {
      return Err(BadQuery);
    }
    var allowed :- CollectOrigins(w, o.allowedOrigins);
    if allowed == [] {
      return Err(NoOrigins);
    }
    var root := w.parseUrl(serviceRoot);
    if root.None? {
      return Err(BadRoot);
    }
    if !Allowed(allowed, root.value) {
      return Err(NotAllowed);
    }
    var maxResults :- ResultLimit(o.maxResults);
    var c := Config(w, asset, mime, q, o.fetchStatus, o.fetchReceipts, root.value, allowed, maxResults);
    var session := new SoftBindingSession(c, root.value.(path := WELL_KNOWN, query := None, fragment := None));
    r := Ok(session);
  }
}
