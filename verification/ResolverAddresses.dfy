/** Where every request of a session goes, what it carries, and which answers are taken. */
module ResolverAddresses {
  import opened Octets
  import opened Texts
  import opened Resolver
  import opened ResolverProtocol

  // ---- Addresses as the answers give them ---------------------------------------------------------

  /** The directory that `base` names: its path up to and including a final slash, nothing after the path. */
  predicate DirectoryOf(base: Url, u: Url) {
    && u.origin == base.origin && u.username == base.username && u.password == base.password && u.isBase == base.isBase
    && u.query.None? && u.fragment.None?
    && u.path != "" && u.path[|u.path| - 1] == '/'
    && (u.path == base.path || (u.path == base.path + "/" && !(base.path != "" && base.path[|base.path| - 1] == '/')))
  }

  predicate Leads(c: Config, base: Url, endpoint: Text, u: Url) {
    c.world.join(base, endpoint) == Some(u)
  }

  /** The service's API: the directory of the endpoint it advertised. */
  predicate ApiOf(c: Config, d: Discovery, api: Url) {
    c.world.join(c.root, d.apiEndpoint).Some? && Allowed(c.allowed, c.world.join(c.root, d.apiEndpoint).value) &&
    DirectoryOf(c.world.join(c.root, d.apiEndpoint).value, api)
  }

  /** The repository of a match: the directory of its own endpoint, or of the API. */
  predicate RepositoryOf(c: Config, api: Url, m: Match, u: Url) {
    match m.endpoint
    case None => DirectoryOf(api, u)
    case Some(e) => c.world.join(api, e).Some? && Allowed(c.allowed, c.world.join(api, e).value) && DirectoryOf(c.world.join(api, e).value, u)
  }

  // ---- Query strings ---------------------------------------------------------------------------------

  /** Any way to read a query string back as the pairs appended to it. */
  type Reader = Option<Text> -> seq<(Text, Text)>

  ghost predicate Reads(c: Config, read: Reader) {
    forall query: Option<Text>, name: Text, value: Text :: read(c.world.appendPair(query, name, value)) == read(query) + [(name, value)]
  }

  /** The same address with these pairs added to its query string. */
  predicate Adds(read: Reader, base: Url, u: Url, pairs: seq<(Text, Text)>) {
    u == base.(query := u.query) && read(u.query) == read(base.query) + pairs
  }

  function IfGiven(name: Text, value: Option<Text>): seq<(Text, Text)> {
    if value.Some? then [(name, value.value)] else []
  }

  /** What each query asks in its query string. */
  function AsksFor(q: Query): seq<(Text, Text)> {
    match q
    case BindingGet(alg, value) => [("value", value), ("alg", alg)]
    case BindingPost(_, _) => []
    case Content(alg, hintAlg, hintValue, _) => IfGiven("alg", alg) + IfGiven("hintAlg", hintAlg) + IfGiven("hintValue", hintValue)
    case Reference(alg, hintAlg, hintValue, _, _, _, _, _) =>
      IfGiven("alg", alg) + IfGiven("hintAlg", hintAlg) + IfGiven("hintValue", hintValue)
  }

  function Route(q: Query): Text {
    match q
    case BindingGet(_, _) => "matches/byBinding"
    case BindingPost(_, _) => "matches/byBinding"
    case Content(_, _, _, _) => "matches/byContent"
    case Reference(_, _, _, _, _, _, _, _) => "matches/byReference"
  }

  /** What each query sends as its body. */
  predicate Carries(c: Config, r: Request) {
    match c.query
    case BindingGet(_, _) => r.verb.Get? && r.body.NoBody? && r.contentType.None?
    case BindingPost(alg, value) =>
      && r.verb.Post? && r.contentType == Some(JSON)
      && r.body == Json(c.world.objectJson([("alg", TextField(alg)), ("value", TextField(value))]))
    case Content(_, _, _, _) => r.verb.Post? && r.contentType == Some(c.mime) && r.body == Asset(c.asset)
    case Reference(_, _, _, url, length, assetType, region, _) =>
      && r.verb.Post? && r.contentType == Some(JSON)
      && r.body == Json(c.world.objectJson(
           [("referenceUrl", TextField(url)), ("assetLength", NumberField(length))]
           + (if assetType.Some? then [("assetType", TextField(assetType.value))] else [])
           + (if region.Some? then [("region", JsonField(region.value))] else [])))
  }

  // ---- Requests -----------------------------------------------------------------------------------------

  predicate PlainGet(r: Request, accept: Text, limit: nat) {
    r.verb.Get? && r.contentType.None? && r.body.NoBody? && r.accept == accept && r.maxResponse == limit
  }

  /** A request as the discovery document, the API and, for a receipt, the request before it prescribe it. */
  ghost predicate AsPrescribed(c: Config, read: Reader, d: Discovery, api: Url, before: Request, r: Request) {
    && Allowed(c.allowed, r.url)
    && match r.kind
       case Discover => false
       case Capabilities =>
         && PlainGet(r, JSON, MAX_SERVICE_JSON_BYTES)
         && (if d.capabilitiesEndpoint.Some? then Leads(c, c.root, d.capabilitiesEndpoint.value, r.url)
             else Leads(c, api, "services/capabilities", r.url))
       case Status => PlainGet(r, JSON, MAX_SERVICE_JSON_BYTES) && d.statusEndpoint.Some? && Leads(c, c.root, d.statusEndpoint.value, r.url)
       case SupportedAlgorithms => PlainGet(r, JSON, MAX_SERVICE_JSON_BYTES) && Leads(c, api, "services/supportedAlgorithms", r.url)
       case Matching =>
         && r.accept == JSON && r.maxResponse == MAX_SERVICE_JSON_BYTES && Carries(c, r)
         && c.world.join(api, Route(c.query)).Some?
         && Adds(read, c.world.join(api, Route(c.query)).value, r.url, AsksFor(c.query) + [("maxResults", c.world.decimal(c.maxResults))])
       case Manifest(m, repository) =>
         && PlainGet(r, C2PA, MAX_MANIFEST_BYTES) && RepositoryOf(c, api, m, repository) && repository.isBase
         && Adds(read, repository.(path := c.world.pushSegments(repository.path, ["manifests", m.manifestId])), r.url, [("returnActiveManifest", "false")])
       case Receipt(_) =>
         && PlainGet(r, JSON, MAX_SERVICE_JSON_BYTES) && before.kind.Manifest?
         && var repository, id := before.kind.repository, before.kind.matched.manifestId;
            repository.isBase && r.url == repository.(path := c.world.pushSegments(repository.path, ["manifests", id, "receipts"]))
  }

  predicate IsFirst(c: Config, r: Request) {
    && r.kind.Discover? && PlainGet(r, JSON, MAX_SERVICE_JSON_BYTES)
    && r.url == c.root.(path := "/.well-known/c2pa-soft-binding-resolution", query := None, fragment := None)
  }

  // ---- Answers --------------------------------------------------------------------------------------------

  /** The algorithms a query names. */
  predicate NamesAlgorithm(q: Query, alg: Text) {
    match q
    case BindingGet(a, _) => alg == a
    case BindingPost(a, _) => alg == a
    case Content(a, hintAlg, _, _) => a == Some(alg) || hintAlg == Some(alg)
    case Reference(a, hintAlg, _, _, _, _, _, _) => a == Some(alg) || hintAlg == Some(alg)
  }

  predicate GoodMatch(m: Match) {
    m.manifestId != "" && (m.score.Some? ==> m.score.value <= 100)
  }

  /** What the answer to a request must say. */
  ghost predicate Proper(c: Config, s: Session, kind: Kind, bytes: seq<byte>) {
    match kind
    case Discover => c.world.parseDiscovery(bytes).Some?
    case Capabilities =>
      && c.world.parseCapabilities(bytes).Some?
      && (c.query.Content? ==> "queryByContent" in c.world.parseCapabilities(bytes).value)
      && (c.query.Reference? ==> "queryByReference" in c.world.parseCapabilities(bytes).value)
    case Status => c.world.parseStatus(bytes).Some?
    case SupportedAlgorithms =>
      && c.world.parseAlgorithms(bytes).Some?
      && var a := c.world.parseAlgorithms(bytes).value;
         forall alg: Text :: NamesAlgorithm(c.query, alg) ==> alg in a.watermarks || alg in a.fingerprints
    case Matching =>
      && c.world.parseMatches(bytes).Some?
      && var ms := c.world.parseMatches(bytes).value;
         |ms| <= c.maxResults && forall i :: 0 <= i < |ms| ==> GoodMatch(ms[i])
    case Manifest(_, _) => c.world.verify(c.asset, bytes, c.mime).Some?
    case Receipt(_) => c.world.parseReceipt(bytes).Some?
  }

  /** What is asked for after an answer, nothing once the last match is dealt with. */
  ghost predicate NextKind(c: Config, s: Session, kind: Kind, bytes: seq<byte>, next: Option<Kind>) {
    match kind
    case Discover => next == Some(Capabilities)
    case Capabilities => next == Some(if c.fetchStatus then Status else SupportedAlgorithms)
    case Status => next == Some(SupportedAlgorithms)
    case SupportedAlgorithms => next == Some(Matching)
    case Matching => c.world.parseMatches(bytes).Some? && NextMatch(c.world.parseMatches(bytes).value, next)
    case Manifest(_, _) => if c.fetchReceipts then next == Some(Receipt(|s.recovered|)) else NextMatch(s.matches, next)
    case Receipt(_) => NextMatch(s.matches, next)
  }

  predicate NextMatch(ms: seq<Match>, next: Option<Kind>) {
    if ms == [] then next.None? else next.Some? && next.value.Manifest? && next.value.matched == ms[0]
  }

  /** What follows the answer: the next request as prescribed, or none. */
  ghost predicate Continues(c: Config, read: Reader, d: Discovery, api: Url, s: Session, bytes: seq<byte>, next: Option<Request>)
    requires s.pending.Some?
  {
    && NextKind(c, s, s.pending.value.kind, bytes, if next.Some? then Some(next.value.kind) else None)
    && (next.Some? ==> AsPrescribed(c, read, d, api, s.pending.value, next.value))
  }

  /** The discovery document and API that hold once the answer is taken. */
  ghost predicate Known(c: Config, s: Session, bytes: seq<byte>, d: Discovery, api: Url)
    requires s.pending.Some?
  {
    if s.pending.value.kind.Discover? then c.world.parseDiscovery(bytes) == Some(d) && ApiOf(c, d, api)
    else s.discovery == Some(d) && s.api == Some(api)
  }

  // ---- Each request is built as prescribed, whenever it can be ------------------------------------------------

  lemma DirectoryExact(base: Url, u: Url)
    ensures DirectoryOf(base, u) <==> u == Directory(base)
  {
    var path := Directory(base).path;
    assert path[|path| - 1] == '/';
  }

  lemma OptionalRead(c: Config, read: Reader, base: Url, u: Url, pairs: seq<(Text, Text)>, name: Text, value: Option<Text>)
    requires Reads(c, read) && Adds(read, base, u, pairs)
    ensures Adds(read, base, WithOptional(c, u, name, value), pairs + IfGiven(name, value))
  {
  }

  lemma PairRead(c: Config, read: Reader, base: Url, u: Url, pairs: seq<(Text, Text)>, name: Text, value: Text)
    requires Reads(c, read) && Adds(read, base, u, pairs)
    ensures Adds(read, base, WithPair(c, u, name, value), pairs + [(name, value)])
  {
  }

  lemma OptionalsRead(c: Config, read: Reader, u: Url, alg: Option<Text>, hintAlg: Option<Text>, hintValue: Option<Text>)
    requires Reads(c, read)
    ensures Adds(read, u, Optionals(c, u, alg, hintAlg, hintValue), IfGiven("alg", alg) + IfGiven("hintAlg", hintAlg) + IfGiven("hintValue", hintValue))
  {
    hide WithOptional, Reads, IfGiven;
    assert Adds(read, u, u, []);
    assert [] + IfGiven("alg", alg) == IfGiven("alg", alg);
    OptionalRead(c, read, u, u, [], "alg", alg);
    var u1 := WithOptional(c, u, "alg", alg);
    OptionalRead(c, read, u, u1, IfGiven("alg", alg), "hintAlg", hintAlg);
    OptionalRead(c, read, u, WithOptional(c, u1, "hintAlg", hintAlg), IfGiven("alg", alg) + IfGiven("hintAlg", hintAlg), "hintValue", hintValue);
  }

  /** The query's address reads as the query's own fields and the limit. */
  lemma QueryReads(c: Config, read: Reader, api: Url)
    requires Reads(c, read) && QueryParts(c, api).Ok?
    ensures c.world.join(api, Route(c.query)).Some?
    ensures Adds(read, c.world.join(api, Route(c.query)).value, QueryParts(c, api).value.1,
                 AsksFor(c.query) + [("maxResults", c.world.decimal(c.maxResults))])
  {
    var base := c.world.join(api, Route(c.query)).value;
    hide Reads, Optionals, IfGiven, BindingJson, ReferenceJson;
    assert Adds(read, base, base, []);
    match c.query
    case BindingGet(alg, value) =>
      PairRead(c, read, base, base, [], "value", value);
      assert [] + [("value", value)] == [("value", value)];
      var u1 := WithPair(c, base, "value", value);
      PairRead(c, read, base, u1, [("value", value)], "alg", alg);
      assert [("value", value)] + [("alg", alg)] == AsksFor(c.query);
      PairRead(c, read, base, WithPair(c, u1, "alg", alg), AsksFor(c.query), "maxResults", c.world.decimal(c.maxResults));
    case BindingPost(_, _) =>
      PairRead(c, read, base, base, [], "maxResults", c.world.decimal(c.maxResults));
    case Content(alg, hintAlg, hintValue, _) =>
      OptionalsRead(c, read, base, alg, hintAlg, hintValue);
      PairRead(c, read, base, Optionals(c, base, alg, hintAlg, hintValue), AsksFor(c.query), "maxResults", c.world.decimal(c.maxResults));
    case Reference(alg, hintAlg, hintValue, _, _, _, _, _) =>
      OptionalsRead(c, read, base, alg, hintAlg, hintValue);
      PairRead(c, read, base, Optionals(c, base, alg, hintAlg, hintValue), AsksFor(c.query), "maxResults", c.world.decimal(c.maxResults));
  }

  lemma QueryCarries(c: Config, s: Session)
    requires QueryRequest(c, s).Ok?
    ensures Carries(c, QueryRequest(c, s).value) && QueryRequest(c, s).value.url == QueryParts(c, s.api.value).value.1
  {
    hide Join, Limited, Optionals, WithPair;
    if c.query.Reference? {
      var fields := [("referenceUrl", TextField(c.query.referenceUrl)), ("assetLength", NumberField(c.query.assetLength))];
      var typed := fields + if c.query.assetType.Some? then [("assetType", TextField(c.query.assetType.value))] else [];
      assert fields + [] == fields && typed + [] == typed;
    }
  }

  /** A request can be built exactly if one could be prescribed, and is as prescribed. */
  ghost predicate Built(c: Config, read: Reader, d: Discovery, api: Url, before: Request, kind: Kind, r: Checked<Request>) {
    && (r.Ok? ==> r.value.kind == kind && AsPrescribed(c, read, d, api, before, r.value))
    && ((exists q: Request :: q.kind == kind && AsPrescribed(c, read, d, api, before, q)) ==> r.Ok?)
  }

  lemma QueryOrigin(c: Config, read: Reader, api: Url)
    requires c.world.join(api, Route(c.query)).Some?
    ensures QueryParts(c, api).Ok?
  {
    hide Limited, Optionals, WithPair, BindingJson, ReferenceJson;
  }

  lemma QueryBuilt(c: Config, read: Reader, d: Discovery, s: Session, before: Request)
    requires Reads(c, read) && s.api.Some?
    ensures Built(c, read, d, s.api.value, before, Matching, QueryRequest(c, s))
  {
    hide QueryParts, Reads, Carries, AsksFor;
    var api, r := s.api.value, QueryRequest(c, s);
    if c.world.join(api, Route(c.query)).Some? {
      QueryOrigin(c, read, api);
    }
    if QueryParts(c, api).Ok? {
      QueryReads(c, read, api);
    }
    if r.Ok? {
      QueryCarries(c, s);
    }
  }

  lemma AlgorithmsBuilt(c: Config, read: Reader, d: Discovery, s: Session, before: Request)
    requires s.api.Some?
    ensures Built(c, read, d, s.api.value, before, SupportedAlgorithms, AlgorithmsRequest(c, s))
  {
  }

  lemma StatusBuilt(c: Config, read: Reader, d: Discovery, api: Url, s: Session, before: Request)
    requires s.discovery == Some(d)
    ensures Built(c, read, d, api, before, Status, StatusRequest(c, s))
  {
  }

  lemma CapabilitiesBuilt(c: Config, read: Reader, d: Discovery, api: Url, before: Request)
    ensures var u := CapabilitiesUrl(c, api, d);
            Built(c, read, d, api, before, Capabilities, if u.Ok? then Ok(JsonGet(u.value, Capabilities)) else Err(u.error))
  {
  }

  lemma ReceiptBuilt(c: Config, read: Reader, d: Discovery, api: Url, before: Request, index: nat)
    requires before.kind.Manifest?
    ensures Built(c, read, d, api, before, Receipt(index), ReceiptRequest(c, before.kind.repository, before.kind.matched, index))
  {
  }

  /** The same of a manifest, whose request also names its repository. */
  lemma ManifestBuilt(c: Config, read: Reader, d: Discovery, s: Session, before: Request, m: Match)
    requires Reads(c, read) && s.api.Some?
    ensures var r := ManifestRequest(c, s, m);
            && (r.Ok? ==> r.value.kind.Manifest? && r.value.kind.matched == m && AsPrescribed(c, read, d, s.api.value, before, r.value))
            && (Prescribable(c, read, d, s.api.value, before, m) ==> r.Ok?)
  {
    hide Reads;
    var api := s.api.value;
    var base := if m.endpoint.Some? then c.world.join(api, m.endpoint.value) else Some(api);
    if base.Some? {
      forall u ensures DirectoryOf(base.value, u) <==> u == Directory(base.value) {
        DirectoryExact(base.value, u);
      }
      hide Directory, DirectoryOf;
      var repository := Directory(base.value);
      var u := repository.(path := c.world.pushSegments(repository.path, ["manifests", m.manifestId]));
      PairRead(c, read, u, u, [], "returnActiveManifest", "false");
      assert [] + [("returnActiveManifest", "false")] == [("returnActiveManifest", "false")];
    }
  }

  // ---- Each answer is taken exactly if it is proper and something can follow it -----------------------------------

  /** How the pending request's answer is taken, as one predicate. */
  ghost predicate TakenRightly(c: Config, read: Reader, d: Discovery, api: Url, s: Session, bytes: seq<byte>, step: Step)
    requires s.pending.Some?
  {
    && (step.1.Ok? ==> Proper(c, s, s.pending.value.kind, bytes) && Continues(c, read, d, api, s, bytes, step.0.pending))
    && (step.1.Err? ==> step.0.pending.None?)
    && (Proper(c, s, s.pending.value.kind, bytes) && (exists next :: Continues(c, read, d, api, s, bytes, next)) ==> step.1.Ok?)
  }

  lemma DiscoveryTaken(c: Config, read: Reader, d: Discovery, api: Url, s: Session, bytes: seq<byte>)
    requires s.pending.Some? && s.pending.value.kind.Discover? && Known(c, s, bytes, d, api)
    ensures TakenRightly(c, read, d, api, s, bytes, AcceptDiscovery(c, s.(pending := None), bytes))
    ensures var step := AcceptDiscovery(c, s.(pending := None), bytes);
            step.1.Ok? ==> step.0.discovery == Some(d) && step.0.api == Some(api)
  {
    CapabilitiesBuilt(c, read, d, api, s.pending.value);
    DirectoryExact(c.world.join(c.root, d.apiEndpoint).value, api);
    hide AsPrescribed, Directory, DirectoryOf, CapabilitiesUrl;
  }

  lemma CapabilitiesTaken(c: Config, read: Reader, d: Discovery, api: Url, s: Session, bytes: seq<byte>)
    requires s.pending.Some? && s.pending.value.kind.Capabilities? && Known(c, s, bytes, d, api)
    ensures TakenRightly(c, read, d, api, s, bytes, AcceptCapabilities(c, s.(pending := None), bytes))
  {
    var s1 := s.(pending := None, capabilities := c.world.parseCapabilities(bytes));
    AlgorithmsBuilt(c, read, d, s1, s.pending.value);
    StatusBuilt(c, read, d, api, s1, s.pending.value);
    hide AsPrescribed, AlgorithmsRequest, StatusRequest;
  }

  lemma StatusTaken(c: Config, read: Reader, d: Discovery, api: Url, s: Session, bytes: seq<byte>)
    requires s.pending.Some? && s.pending.value.kind.Status? && Known(c, s, bytes, d, api)
    ensures TakenRightly(c, read, d, api, s, bytes, AcceptStatus(c, s.(pending := None), bytes))
  {
    AlgorithmsBuilt(c, read, d, s.(pending := None), s.pending.value);
    hide AsPrescribed, AlgorithmsRequest;
  }

  lemma SupportedMeans(q: Query, a: Algorithms)
    ensures Supported(a, q.Selected()) <==> forall alg: Text :: NamesAlgorithm(q, alg) ==> alg in a.watermarks || alg in a.fingerprints
  {
    var selected := q.Selected();
    forall alg: Text ensures NamesAlgorithm(q, alg) <==> alg in selected {
    }
    forall i | 0 <= i < |selected| ensures NamesAlgorithm(q, selected[i]) {
      assert selected[i] in selected;
    }
  }

  lemma AlgorithmsTaken(c: Config, read: Reader, d: Discovery, api: Url, s: Session, bytes: seq<byte>)
    requires s.pending.Some? && s.pending.value.kind.SupportedAlgorithms? && Known(c, s, bytes, d, api) && Reads(c, read)
    ensures TakenRightly(c, read, d, api, s, bytes, AcceptAlgorithms(c, s.(pending := None), bytes))
  {
    QueryBuilt(c, read, d, s.(pending := None), s.pending.value);
    if c.world.parseAlgorithms(bytes).Some? {
      SupportedMeans(c.query, c.world.parseAlgorithms(bytes).value);
    }
    hide AsPrescribed, QueryRequest, Supported, NamesAlgorithm, Reads;
  }

  /** Some request for this match's manifest is as prescribed. */
  ghost predicate Prescribable(c: Config, read: Reader, d: Discovery, api: Url, before: Request, m: Match) {
    exists q: Request :: q.kind.Manifest? && q.kind.matched == m && AsPrescribed(c, read, d, api, before, q)
  }

  /** The next match is asked for, if any is left. */
  lemma NextTaken(c: Config, read: Reader, d: Discovery, api: Url, s: Session, before: Request)
    requires s.pending.None? && s.api == Some(api) && Reads(c, read)
    ensures var (t, taken) := NextManifest(c, s);
            && (taken.Ok? ==>
                  && NextMatch(s.matches, if t.pending.Some? then Some(t.pending.value.kind) else None)
                  && (t.pending.Some? ==> AsPrescribed(c, read, d, api, before, t.pending.value)))
            && (taken.Err? ==> t.pending.None?)
            && (s.matches == [] ==> taken.Ok?)
            && (s.matches != [] && Prescribable(c, read, d, api, before, s.matches[0]) ==> taken.Ok?)
  {
    hide AsPrescribed, ManifestRequest, Reads;
    if s.matches != [] {
      ManifestBuilt(c, read, d, s, before, s.matches[0]);
    }
  }

  /** Something can follow exactly if a request for the next match can be prescribed. */
  lemma NextFollows(c: Config, read: Reader, d: Discovery, api: Url, s: Session, bytes: seq<byte>, ms: seq<Match>, next: Option<Request>)
    requires s.pending.Some? && Continues(c, read, d, api, s, bytes, next) && ms != []
    requires NextMatch(ms, if next.Some? then Some(next.value.kind) else None)
    ensures Prescribable(c, read, d, api, s.pending.value, ms[0])
  {
    hide AsPrescribed;
    assert next.value.kind.Manifest?;
  }

  lemma {:induction false} DefectMeans(ms: seq<Match>)
    ensures MatchesDefect(ms).None? <==> forall i :: 0 <= i < |ms| ==> GoodMatch(ms[i])
  {
    if ms != [] {
      DefectMeans(ms[1..]);
      if MatchesDefect(ms).None? {
        forall i | 0 <= i < |ms| ensures GoodMatch(ms[i]) {
          assert i > 0 ==> ms[i] == ms[1..][i - 1];
        }
      } else if GoodMatch(ms[0]) {
        var i :| 0 <= i < |ms[1..]| && !GoodMatch(ms[1..][i]);
        assert !GoodMatch(ms[i + 1]);
      }
    }
  }

  lemma MatchesTaken(c: Config, read: Reader, d: Discovery, api: Url, s: Session, bytes: seq<byte>)
    requires s.pending.Some? && s.pending.value.kind.Matching? && Known(c, s, bytes, d, api) && Reads(c, read)
    ensures TakenRightly(c, read, d, api, s, bytes, AcceptMatches(c, s.(pending := None), bytes))
  {
    hide AsPrescribed, NextManifest, Reads, MatchesDefect, GoodMatch;
    var ms := c.world.parseMatches(bytes);
    if ms.Some? {
      DefectMeans(ms.value);
      NextTaken(c, read, d, api, s.(pending := None, matches := ms.value), s.pending.value);
      if ms.value != [] {
        forall next | Continues(c, read, d, api, s, bytes, next)
          ensures NextManifest(c, s.(pending := None, matches := ms.value)).1.Ok?
        {
          NextFollows(c, read, d, api, s, bytes, ms.value, next);
        }
      }
    }
  }

  lemma ManifestTaken(c: Config, read: Reader, d: Discovery, api: Url, s: Session, bytes: seq<byte>)
    requires s.pending.Some? && s.pending.value.kind.Manifest? && Known(c, s, bytes, d, api) && Reads(c, read)
    ensures var kind := s.pending.value.kind;
            TakenRightly(c, read, d, api, s, bytes, AcceptManifest(c, s.(pending := None), kind.matched, kind.repository, bytes))
  {
    hide AsPrescribed, NextManifest, Reads, ReceiptRequest;
    var before, report := s.pending.value, c.world.verify(c.asset, bytes, c.mime);
    if report.Some? {
      var s1 := s.(pending := None, recovered := s.recovered + [Recovered(before.kind.matched, bytes, report.value, None)]);
      if c.fetchReceipts {
        ReceiptBuilt(c, read, d, api, before, |s.recovered|);
      } else {
        NextTaken(c, read, d, api, s1, before);
        if s.matches != [] {
          forall next | Continues(c, read, d, api, s, bytes, next) ensures NextManifest(c, s1).1.Ok? {
            NextFollows(c, read, d, api, s, bytes, s.matches, next);
          }
        }
      }
    }
  }

  lemma ReceiptTaken(c: Config, read: Reader, d: Discovery, api: Url, s: Session, bytes: seq<byte>)
    requires s.pending.Some? && s.pending.value.kind.Receipt? && SessionOk(s) && Known(c, s, bytes, d, api) && Reads(c, read)
    ensures TakenRightly(c, read, d, api, s, bytes, AcceptReceipt(c, s.(pending := None), s.pending.value.kind.index, bytes))
  {
    hide AsPrescribed, NextManifest, Reads;
    var before, index, receipt := s.pending.value, s.pending.value.kind.index, c.world.parseReceipt(bytes);
    if receipt.Some? {
      var s1 := s.(pending := None, recovered := s.recovered[index := s.recovered[index].(receipt := receipt)]);
      NextTaken(c, read, d, api, s1, before);
      if s.matches != [] {
        forall next | Continues(c, read, d, api, s, bytes, next) ensures NextManifest(c, s1).1.Ok? {
          NextFollows(c, read, d, api, s, bytes, s.matches, next);
        }
      }
    }
  }

  // ---- Main results ---------------------------------------------------------------------------------------------------

  /** The answer comes from the address asked, is short enough and proper, and what must follow it can be asked for. */
  ghost predicate Welcome(c: Config, read: Reader, s: Session, a: Answer) {
    && s.pending.Some? && c.world.parseUrl(a.finalUrl) == Some(s.pending.value.url) && |a.bytes| <= s.pending.value.maxResponse
    && Proper(c, s, s.pending.value.kind, a.bytes)
    && exists d, api, next :: Known(c, s, a.bytes, d, api) && Continues(c, read, d, api, s, a.bytes, next)
  }

  /** What a session knows while something is pending. */
  ghost predicate Standing(c: Config, answers: seq<Answer>, s: Session) {
    s.pending.Some? ==>
      if s.pending.value.kind.Discover? then answers == []
      else
        && answers != [] && s.discovery.Some? && s.discovery == c.world.parseDiscovery(answers[0].bytes)
        && s.api.Some? && ApiOf(c, s.discovery.value, s.api.value)
  }

  lemma DispatchTaken(c: Config, read: Reader, d: Discovery, api: Url, s: Session, a: Answer)
    requires SessionOk(s) && s.pending.Some? && Known(c, s, a.bytes, d, api) && Reads(c, read)
    requires c.world.parseUrl(a.finalUrl) == Some(s.pending.value.url) && |a.bytes| <= s.pending.value.maxResponse
    ensures TakenRightly(c, read, d, api, s, a.bytes, Accept(c, s, a))
  {
    hide TakenRightly, AcceptDiscovery, AcceptCapabilities, AcceptStatus, AcceptAlgorithms, AcceptMatches, AcceptManifest, AcceptReceipt, Reads,
         Known, Proper;
    match s.pending.value.kind
    case Discover => DiscoveryTaken(c, read, d, api, s, a.bytes);
    case Capabilities => CapabilitiesTaken(c, read, d, api, s, a.bytes);
    case Status => StatusTaken(c, read, d, api, s, a.bytes);
    case SupportedAlgorithms => AlgorithmsTaken(c, read, d, api, s, a.bytes);
    case Matching => MatchesTaken(c, read, d, api, s, a.bytes);
    case Manifest(_, _) => ManifestTaken(c, read, d, api, s, a.bytes);
    case Receipt(_) => ReceiptTaken(c, read, d, api, s, a.bytes);
  }

  /** Discovery needs an API. */
  lemma DiscoveryNeedsApi(c: Config, s: Session, a: Answer)
    requires SessionOk(s) && s.pending.Some? && s.pending.value.kind.Discover? && Accept(c, s, a).1.Ok?
    ensures var d := c.world.parseDiscovery(a.bytes);
            && d.Some? && c.world.join(c.root, d.value.apiEndpoint).Some?
            && ApiOf(c, d.value, Directory(c.world.join(c.root, d.value.apiEndpoint).value))
  {
    var d := c.world.parseDiscovery(a.bytes).value;
    var base := c.world.join(c.root, d.apiEndpoint).value;
    DirectoryExact(base, Directory(base));
    hide CapabilitiesUrl, Directory, DirectoryOf;
  }

  lemma AnswerStep(c: Config, read: Reader, answers: seq<Answer>, s: Session, a: Answer)
    requires SessionOk(s) && Standing(c, answers, s) && Reads(c, read)
    ensures Accept(c, s, a).1.Ok? <==> Welcome(c, read, s, a)
    ensures Accept(c, s, a).1.Err? ==> Accept(c, s, a).0.pending.None?
  {
    RefusedEarly(c, s, a);
    if s.pending.Some? && c.world.parseUrl(a.finalUrl) == Some(s.pending.value.url) && |a.bytes| <= s.pending.value.maxResponse {
      var kind := s.pending.value.kind;
      if kind.Discover? && Accept(c, s, a).1.Ok? {
        DiscoveryNeedsApi(c, s, a);
        var d := c.world.parseDiscovery(a.bytes).value;
        var api := Directory(c.world.join(c.root, d.apiEndpoint).value);
        hide Accept, Proper, Continues, Reads, ApiOf;
        assert Known(c, s, a.bytes, d, api);
        DispatchTaken(c, read, d, api, s, a);
      } else if !kind.Discover? {
        hide Accept, Proper, Continues, Reads, ApiOf;
        assert Known(c, s, a.bytes, s.discovery.value, s.api.value);
        DispatchTaken(c, read, s.discovery.value, s.api.value, s, a);
      } else {
        hide Accept, Proper, Continues, Reads, ApiOf;
        DiscoveryFails(c, s, a);
        forall d, api | Known(c, s, a.bytes, d, api) && (exists next :: Continues(c, read, d, api, s, a.bytes, next))
          ensures !Proper(c, s, kind, a.bytes)
        {
          DispatchTaken(c, read, d, api, s, a);
        }
      }
    }
  }

  lemma RefusedEarly(c: Config, s: Session, a: Answer)
    requires SessionOk(s)
    ensures s.pending.None? || c.world.parseUrl(a.finalUrl) != Some(s.pending.value.url) || |a.bytes| > s.pending.value.maxResponse ==>
              Accept(c, s, a).1.Err? && Accept(c, s, a).0.pending.None?
  {
  }

  lemma DiscoveryFails(c: Config, s: Session, a: Answer)
    requires SessionOk(s) && s.pending.Some? && s.pending.value.kind.Discover? && Accept(c, s, a).1.Err?
    ensures Accept(c, s, a).0.pending.None?
  {
    hide Resolve, CapabilitiesUrl;
  }

  /** Request `i` of a run is the first one, or as the first answer and the request before it prescribe. */
  ghost predicate Rightly(c: Config, read: Reader, answers: seq<Answer>, offered: seq<Request>, i: nat)
    requires i < |offered|
  {
    if i == 0 then IsFirst(c, offered[0])
    else
      && answers != [] && c.world.parseDiscovery(answers[0].bytes).Some?
      && exists api :: ApiOf(c, c.world.parseDiscovery(answers[0].bytes).value, api) &&
           AsPrescribed(c, read, c.world.parseDiscovery(answers[0].bytes).value, api, offered[i - 1], offered[i])
  }

  lemma KeepsDocuments(c: Config, s: Session, a: Answer)
    requires SessionOk(s) && s.pending.Some? && !s.pending.value.kind.Discover?
    ensures Accept(c, s, a).0.discovery == s.discovery && Accept(c, s, a).0.api == s.api
  {
    hide AlgorithmsRequest, StatusRequest, QueryRequest, ManifestRequest, ReceiptRequest, Advertised, Supported, MatchesDefect;
  }

  /** One more answer: the session stands on the first answer, and what is offered next is as prescribed. */
  lemma StandingStep(c: Config, read: Reader, answers: seq<Answer>, s: Session, a: Answer)
    requires SessionOk(s) && Standing(c, answers, s) && Reads(c, read)
    ensures var t := Accept(c, s, a).0;
            && Standing(c, answers + [a], t)
            && (t.pending.Some? ==>
                  s.pending.Some? && t.discovery.Some? && t.api.Some? && t.discovery == c.world.parseDiscovery((answers + [a])[0].bytes) &&
                  ApiOf(c, t.discovery.value, t.api.value) && AsPrescribed(c, read, t.discovery.value, t.api.value, s.pending.value, t.pending.value))
  {
    AnswerStep(c, read, answers, s, a);
    var (t, taken) := Accept(c, s, a);
    if taken.Ok? {
      hide Reads, ApiOf, AsPrescribed, Proper;
      if s.pending.value.kind.Discover? {
        DiscoveryNeedsApi(c, s, a);
        var d := c.world.parseDiscovery(a.bytes).value;
        var api := Directory(c.world.join(c.root, d.apiEndpoint).value);
        DiscoveryTaken(c, read, d, api, s, a.bytes);
      } else {
        KeepsDocuments(c, s, a);
        hide Accept, ApiOf;
        DispatchTaken(c, read, s.discovery.value, s.api.value, s, a);
      }
    }
  }

  lemma {:induction false} RunStands(c: Config, read: Reader, s: Session, answers: seq<Answer>)
    requires Created(c, s) && SessionOk(s) && Reads(c, read)
    ensures var r := RunOf(c, s, answers);
            Standing(c, answers, r.session) && forall i :: 0 <= i < |r.offered| ==> Rightly(c, read, answers, r.offered, i)
  {
    hide Reads, Ordered;
    if answers != [] {
      hide Accept, Standing, Rightly, Created;
      var prefix, a := answers[..|answers| - 1], answers[|answers| - 1];
      assert answers == prefix + [a];
      RunStands(c, read, s, prefix);
      RunOrdered(c, s, prefix);
      var r, n := RunOf(c, s, prefix), RunOf(c, s, answers);
      StandingStep(c, read, prefix, r.session, a);
      forall i | 0 <= i < |n.offered| ensures Rightly(c, read, answers, n.offered, i) {
        if i < |r.offered| {
          RightlyStays(c, read, prefix, a, r.offered, n.offered, i);
        } else {
          LastOffered(c, r);
          NextRightly(c, read, answers, n.offered, i, n.session);
        }
      }
    }
  }

  lemma LastOffered(c: Config, r: Run)
    requires Ordered(c, r) && r.session.pending.Some?
    ensures r.offered != [] && r.offered[|r.offered| - 1] == r.session.pending.value
  {
  }

  lemma RightlyStays(c: Config, read: Reader, answers: seq<Answer>, a: Answer, offered: seq<Request>, more: seq<Request>, i: nat)
    requires i < |offered| && offered <= more && Rightly(c, read, answers, offered, i)
    ensures Rightly(c, read, answers + [a], more, i)
  {
    hide AsPrescribed, ApiOf;
  }

  lemma NextRightly(c: Config, read: Reader, answers: seq<Answer>, offered: seq<Request>, i: nat, t: Session)
    requires 0 < i < |offered| && answers != [] && t.pending == Some(offered[i]) && t.discovery.Some? && t.api.Some?
    requires t.discovery == c.world.parseDiscovery(answers[0].bytes) && ApiOf(c, t.discovery.value, t.api.value)
    requires AsPrescribed(c, read, t.discovery.value, t.api.value, offered[i - 1], offered[i])
    ensures Rightly(c, read, answers, offered, i)
  {
    hide AsPrescribed, ApiOf;
  }

  /** For every sequence of answers, and for any way of reading query strings: every request ever offered goes where the root,
      the first answer and its own match say, with the method, pairs and body of its kind. */
  lemma EveryRequestAddressed(c: Config, read: Reader, s: Session, answers: seq<Answer>)
    requires Created(c, s) && SessionOk(s) && Reads(c, read)
    ensures var r := RunOf(c, s, answers);
            forall i :: 0 <= i < |r.offered| ==> Rightly(c, read, answers, r.offered, i)
  {
    hide RunOf, Rightly, Reads, Created;
    RunStands(c, read, s, answers);
  }

  /** At every point of every run, the next answer is taken exactly if it is welcome. */
  lemma AnswerExact(c: Config, read: Reader, s: Session, answers: seq<Answer>, a: Answer)
    requires Created(c, s) && SessionOk(s) && Reads(c, read)
    ensures RunOf(c, s, answers + [a]).clean <==> RunOf(c, s, answers).clean && Welcome(c, read, RunOf(c, s, answers).session, a)
  {
    hide RunOf, Rightly, Reads, Created, Accept, Welcome;
    RunStands(c, read, s, answers);
    RunExtends(c, s, answers, a);
    AnswerStep(c, read, answers, RunOf(c, s, answers).session, a);
  }

  // ---- Creation -------------------------------------------------------------------------------------------------------

  /** An origin written as such, with at most a slash after it. */
  predicate OriginFit(w: World, value: Text) {
    && w.parseUrl(value).Some? && w.network(w.parseUrl(value).value) && w.parseUrl(value).value.origin != "null"
    && var text, origin := w.urlText(w.parseUrl(value).value), w.parseUrl(value).value.origin;
       text == origin || text == origin + "/"
  }

  predicate Filled(w: World, value: Option<Text>) {
    value.Some? ==> !w.blank(value.value)
  }

  /** Named fields are filled, hints come in pairs, and what is disclosed is consented to. */
  predicate QueryFit(w: World, q: Query) {
    match q
    case BindingGet(alg, value) => !w.blank(alg) && !w.blank(value)
    case BindingPost(alg, value) => !w.blank(alg) && !w.blank(value)
    case Content(alg, hintAlg, hintValue, consent) =>
      consent == UploadAsset && Filled(w, alg) && Filled(w, hintAlg) && Filled(w, hintValue) && hintAlg.Some? == hintValue.Some?
    case Reference(alg, hintAlg, hintValue, url, length, _, _, consent) =>
      && consent == DiscloseReference && Filled(w, alg) && Filled(w, hintAlg) && Filled(w, hintValue) && hintAlg.Some? == hintValue.Some?
      && length != 0 && w.parseUrl(url).Some? && w.https(w.parseUrl(url).value)
  }

  lemma {:induction false} OriginsAccepted(w: World, values: seq<Text>, origins: seq<Text>)
    ensures AllowedOrigins(w, values, origins).Ok? <==> forall i :: 0 <= i < |values| ==> OriginFit(w, values[i])
    decreases |values|
  {
    if values != [] && OriginFit(w, values[0]) {
      var origin := w.parseUrl(values[0]).value.origin;
      OriginsAccepted(w, values[1..], if origin in origins then origins else origins + [origin]);
      if AllowedOrigins(w, values, origins).Ok? {
        forall i | 0 <= i < |values| ensures OriginFit(w, values[i]) {
          assert i > 0 ==> values[i] == values[1..][i - 1];
        }
      } else {
        var i :| 0 <= i < |values[1..]| && !OriginFit(w, values[1..][i]);
        assert !OriginFit(w, values[i + 1]);
      }
    }
  }

  /** A session is created exactly if it may go online, is asked something it may ask, and its root has a configured origin and
      no credentials; it is then set up with just what it was given. */
  lemma CreateExact(w: World, asset: seq<byte>, mime: Text, permission: Permission, serviceRoot: Text, q: Query, o: Options)
    ensures var root := w.parseUrl(serviceRoot);
            Create(w, asset, mime, permission, serviceRoot, q, o).Ok? <==>
              && permission.valid && permission.online && !w.blank(mime) && QueryFit(w, q)
              && (forall i :: 0 <= i < |o.allowedOrigins| ==> OriginFit(w, o.allowedOrigins[i]))
              && root.Some? && root.value.username == "" && root.value.password.None? && Configures(w, o.allowedOrigins, root.value.origin)
              && o.maxResults <= 100
    ensures Create(w, asset, mime, permission, serviceRoot, q, o).Ok? ==>
              var (c, s) := Create(w, asset, mime, permission, serviceRoot, q, o).value;
              && c.world == w && c.asset == asset && c.mime == mime && c.query == q && c.fetchStatus == o.fetchStatus
              && c.fetchReceipts == o.fetchReceipts && w.parseUrl(serviceRoot) == Some(c.root)
              && c.maxResults == (if o.maxResults == 0 then 10 else o.maxResults)
              && forall x :: x in c.allowed <==> Configures(w, o.allowedOrigins, x)
  {
    OriginsAccepted(w, o.allowedOrigins, []);
    QueryFits(w, q);
    if AllowedOrigins(w, o.allowedOrigins, []).Ok? {
      OriginsExact(w, o.allowedOrigins, []);
    }
    hide AllowedOrigins, QueryOk, QueryFit, OriginFit, Configures;
  }

  lemma QueryFits(w: World, q: Query)
    ensures QueryOk(w, q) <==> QueryFit(w, q)
  {
  }
}
