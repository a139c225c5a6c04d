/** What holds of every resolver session, whatever the servers answer. */
module ResolverProtocol {
  import opened Octets
  import opened Texts
  import opened Resolver

  // ---- Runs --------------------------------------------------------------------------------------

  /** A session with everything it has offered so far, whether it has seen no error, and the matches it was returned. */
  datatype Run = Run(session: Session, clean: bool, offered: seq<Request>, returned: Option<seq<Match>>)

  function Pending(s: Session): seq<Request> {
    if s.pending.Some? then [s.pending.value] else []
  }

  function After(c: Config, r: Run, a: Answer): Run
    requires SessionOk(r.session)
  {
    var (s, taken) := Accept(c, r.session, a);
    Run(s, r.clean && taken.Ok?, r.offered + Pending(s),
        if taken.Ok? && r.session.pending.Some? && r.session.pending.value.kind.Matching? then c.world.parseMatches(a.bytes) else r.returned)
  }

  lemma AcceptKeepsOk(c: Config, s: Session, a: Answer)
    requires SessionOk(s)
    ensures SessionOk(Accept(c, s, a).0)
  {
    hide Resolve, Join, Directory, MatchesDefect, Supported, QueryParts, ManifestEndpoint, WithPair, Advertised;
  }

  function RunOf(c: Config, s: Session, answers: seq<Answer>): (r: Run)
    requires SessionOk(s)
    ensures SessionOk(r.session)
  {
    if answers == [] then Run(s, true, Pending(s), None)
    else
      var before := RunOf(c, s, answers[..|answers| - 1]);
      AcceptKeepsOk(c, before.session, answers[|answers| - 1]);
      After(c, before, answers[|answers| - 1])
  }

  /** The session of a successful creation: one request to the well-known address of the root. */
  ghost predicate Created(c: Config, s: Session) {
    && Allowed(c.allowed, c.root) && 1 <= c.maxResults <= MAX_RESULTS
    && (c.query.Content? ==> c.query.consent.UploadAsset?)
    && (c.query.Reference? ==> c.query.consent.DiscloseReference?)
    && s == Session(None, None, None, None, None, [], [],
                    Some(JsonGet(c.root.(path := WELL_KNOWN, query := None, fragment := None), Discover)))
  }

  lemma CreateMakes(w: World, asset: seq<byte>, mime: Text, permission: Permission, serviceRoot: Text, q: Query, o: Options)
    requires Create(w, asset, mime, permission, serviceRoot, q, o).Ok?
    ensures var (c, s) := Create(w, asset, mime, permission, serviceRoot, q, o).value;
            Created(c, s) && SessionOk(s) && c.asset == asset && c.query == q
    ensures permission.valid && permission.online
  {
    hide AllowedOrigins, OptionalFieldsOk;
  }

  /** The allowlist holds exactly the configured origins, each once. */
  lemma {:induction false} OriginsExact(w: World, values: seq<Text>, origins: seq<Text>)
    requires AllowedOrigins(w, values, origins).Ok?
    requires forall i, j :: 0 <= i < j < |origins| ==> origins[i] != origins[j]
    ensures var r := AllowedOrigins(w, values, origins).value;
            && (forall i, j :: 0 <= i < j < |r| ==> r[i] != r[j])
            && (forall x :: x in r <==> x in origins || Configures(w, values, x))
    decreases |values|
  {
    if values != [] {
      var origin := w.parseUrl(values[0]).value.origin;
      var next := if origin in origins then origins else origins + [origin];
      OriginsExact(w, values[1..], next);
      forall x ensures Configures(w, values, x) <==> x == origin || Configures(w, values[1..], x) {
        if x == origin {
          assert Names(w, values[0], x);
        }
        if Configures(w, values[1..], x) {
          var i :| 0 <= i < |values[1..]| && Names(w, values[1..][i], x);
          assert Names(w, values[i + 1], x);
        }
        if Configures(w, values, x) {
          var i :| 0 <= i < |values| && Names(w, values[i], x);
          if i > 0 {
            assert values[1..][i - 1] == values[i];
          }
        }
      }
    }
  }

  predicate Names(w: World, value: Text, origin: Text) {
    w.parseUrl(value).Some? && w.parseUrl(value).value.origin == origin
  }

  ghost predicate Configures(w: World, values: seq<Text>, origin: Text) {
    exists i :: 0 <= i < |values| && Names(w, values[i], origin)
  }

  // ---- Safety: where requests go and what they carry -----------------------------------------------

  /** An allowlisted origin without credentials, and the asset only as the body of a consented content query. */
  predicate RequestOk(c: Config, q: Request) {
    && Allowed(c.allowed, q.url)
    && (q.body.Asset? ==>
          q.kind.Matching? && c.query.Content? && c.query.consent.UploadAsset? && q.body.bytes == c.asset && q.contentType == Some(c.mime))
    && (q.contentType.Some? <==> !q.body.NoBody?)
    && q.accept == (if q.kind.Manifest? then C2PA else JSON)
    && (q.verb.Post? ==> q.kind.Matching?)
    && q.maxResponse <= MAX_MANIFEST_BYTES
  }

  ghost predicate NextOk(c: Config, s: Session) {
    s.pending.Some? ==> RequestOk(c, s.pending.value)
  }

  lemma QueryRequestOk(c: Config, s: Session)
    requires (c.query.Content? ==> c.query.consent.UploadAsset?) && QueryRequest(c, s).Ok?
    ensures RequestOk(c, QueryRequest(c, s).value) && QueryRequest(c, s).value.kind.Matching?
  {
    hide Join, Limited, Optionals, WithPair;
  }

  lemma ManifestRequestOk(c: Config, s: Session, m: Match)
    requires ManifestRequest(c, s, m).Ok?
    ensures RequestOk(c, ManifestRequest(c, s, m).value) && ManifestRequest(c, s, m).value.kind.Manifest?
    ensures ManifestRequest(c, s, m).value.kind.matched == m
  {
    hide Resolve, Directory, ManifestEndpoint, WithPair;
  }

  lemma NextManifestSafe(c: Config, s: Session)
    requires s.pending.None?
    ensures NextOk(c, NextManifest(c, s).0)
  {
    hide ManifestRequest, RequestOk;
    if s.matches != [] && ManifestRequest(c, s, s.matches[0]).Ok? {
      ManifestRequestOk(c, s, s.matches[0]);
    }
  }

  lemma AcceptSafe(c: Config, s: Session, a: Answer)
    requires SessionOk(s) && (c.query.Content? ==> c.query.consent.UploadAsset?)
    ensures NextOk(c, Accept(c, s, a).0)
  {
    hide Directory, Supported, QueryRequest, NextManifest, Advertised, MatchesDefect, ReceiptEndpoint;
    if s.pending.Some? {
      var s1, kind := s.(pending := None), s.pending.value.kind;
      match kind
      case Discover =>
      case Capabilities =>
      case Status =>
      case SupportedAlgorithms =>
        if QueryRequest(c, s1).Ok? {
          QueryRequestOk(c, s1);
        }
      case Matching =>
        if c.world.parseMatches(a.bytes).Some? {
          NextManifestSafe(c, s1.(matches := c.world.parseMatches(a.bytes).value));
        }
      case Manifest(m, _) =>
        var report := c.world.verify(c.asset, a.bytes, c.mime);
        if report.Some? {
          NextManifestSafe(c, s1.(recovered := s1.recovered + [Recovered(m, a.bytes, report.value, None)]));
        }
      case Receipt(index) =>
        NextManifestSafe(c, s1.(recovered := s1.recovered[index := s1.recovered[index].(receipt := c.world.parseReceipt(a.bytes))]));
    }
  }

  /** For every sequence of answers, every request ever offered is safe. */
  lemma {:induction false} EveryRequestSafe(c: Config, s: Session, answers: seq<Answer>)
    requires Created(c, s) && SessionOk(s)
    ensures forall i :: 0 <= i < |RunOf(c, s, answers).offered| ==> RequestOk(c, RunOf(c, s, answers).offered[i])
  {
    if answers != [] {
      hide Accept, RequestOk;
      var prefix, a := answers[..|answers| - 1], answers[|answers| - 1];
      EveryRequestSafe(c, s, prefix);
      AcceptSafe(c, RunOf(c, s, prefix).session, a);
    }
  }

  // ---- Bounds: how many requests ----------------------------------------------------------------------

  function Phase(k: Kind): nat {
    match k case Discover => 0 case Capabilities => 1 case Status => 2 case SupportedAlgorithms => 3 case Matching => 4 case _ => 5
  }

  /** Most requests a session can still offer, the pending one included. */
  function Left(c: Config, s: Session): nat {
    if s.pending.None? then 0
    else match s.pending.value.kind
      case Manifest(_, _) => 2 + 2 * |s.matches|
      case Receipt(_) => 1 + 2 * |s.matches|
      case k => 5 - Phase(k) + 2 * c.maxResults
  }

  /** A request follows another only in a later phase, or for another manifest or receipt. */
  predicate Follows(before: Kind, next: Kind) {
    Phase(before) < Phase(next) || (Phase(before) == 5 && Phase(next) == 5)
  }

  ghost predicate Onward(c: Config, s: Session, t: Session) {
    && (t.pending.Some? ==> s.pending.Some? && Follows(s.pending.value.kind, t.pending.value.kind))
    && (s.pending.Some? ==> Left(c, t) < Left(c, s))
  }

  lemma NextManifestOnward(c: Config, s: Session)
    requires s.pending.None?
    ensures var t := NextManifest(c, s).0;
            (t.pending.Some? ==> t.pending.value.kind.Manifest?) && Left(c, t) <= 2 * |s.matches|
  {
    hide ManifestRequest;
    if s.matches != [] && ManifestRequest(c, s, s.matches[0]).Ok? {
      ManifestRequestOk(c, s, s.matches[0]);
    }
  }

  lemma AcceptOnward(c: Config, s: Session, a: Answer)
    requires SessionOk(s) && (c.query.Content? ==> c.query.consent.UploadAsset?)
    ensures Onward(c, s, Accept(c, s, a).0)
  {
    hide Directory, Supported, QueryRequest, NextManifest, Advertised, MatchesDefect, ReceiptEndpoint, Resolve, Join, RequestOk;
    if s.pending.Some? {
      var s1, kind := s.(pending := None), s.pending.value.kind;
      match kind
      case Discover =>
      case Capabilities =>
      case Status =>
      case SupportedAlgorithms =>
        if QueryRequest(c, s1).Ok? {
          QueryRequestOk(c, s1);
        }
      case Matching =>
        if c.world.parseMatches(a.bytes).Some? {
          NextManifestOnward(c, s1.(matches := c.world.parseMatches(a.bytes).value));
        }
      case Manifest(m, _) =>
        var report := c.world.verify(c.asset, a.bytes, c.mime);
        if report.Some? {
          NextManifestOnward(c, s1.(recovered := s1.recovered + [Recovered(m, a.bytes, report.value, None)]));
        }
      case Receipt(index) =>
        NextManifestOnward(c, s1.(recovered := s1.recovered[index := s1.recovered[index].(receipt := c.world.parseReceipt(a.bytes))]));
    }
  }

  /** Requests come in order, the pending one last. */
  ghost predicate Ordered(c: Config, r: Run) {
    && (r.session.pending.Some? ==> r.offered != [] && r.offered[|r.offered| - 1] == r.session.pending.value)
    && (forall i, j :: 0 <= i < j < |r.offered| ==> Follows(r.offered[i].kind, r.offered[j].kind))
    && |r.offered| + Left(c, r.session) <= 5 + 2 * c.maxResults + |Pending(r.session)|
  }

  lemma AfterOrdered(c: Config, r: Run, a: Answer)
    requires SessionOk(r.session) && (c.query.Content? ==> c.query.consent.UploadAsset?) && Ordered(c, r)
    ensures Ordered(c, After(c, r, a))
  {
    hide Accept, Left;
    AcceptOnward(c, r.session, a);
    var n := After(c, r, a);
    IdleLeft(c, r.session);
    IdleLeft(c, n.session);
    forall i, j | 0 <= i < j < |n.offered| ensures Follows(n.offered[i].kind, n.offered[j].kind) {
      if j == |r.offered| && i < j - 1 {
        assert Follows(r.offered[i].kind, r.offered[j - 1].kind);
      }
    }
  }

  lemma IdleLeft(c: Config, s: Session)
    ensures s.pending.None? ==> Left(c, s) == 0
  {
  }

  lemma {:induction false} RunOrdered(c: Config, s: Session, answers: seq<Answer>)
    requires Created(c, s) && SessionOk(s)
    ensures Ordered(c, RunOf(c, s, answers))
  {
    if answers != [] {
      hide Accept, Ordered, Left;
      var prefix := answers[..|answers| - 1];
      RunOrdered(c, s, prefix);
      AfterOrdered(c, RunOf(c, s, prefix), answers[|answers| - 1]);
    }
  }

  lemma MatchingOnce(c: Config, r: Run)
    requires Ordered(c, r)
    ensures forall i, j :: 0 <= i < j < |r.offered| ==> !(r.offered[i].kind.Matching? && r.offered[j].kind.Matching?)
  {
    forall i, j | 0 <= i < j < |r.offered| ensures !(r.offered[i].kind.Matching? && r.offered[j].kind.Matching?) {
      assert Follows(r.offered[i].kind, r.offered[j].kind);
    }
  }

  /** For every sequence of answers: at most 5 + 2 * maxResults requests, at most one of them the query, so at most one with
      the asset as its body. */
  lemma RequestBound(c: Config, s: Session, answers: seq<Answer>)
    requires Created(c, s) && SessionOk(s)
    ensures |RunOf(c, s, answers).offered| <= 5 + 2 * c.maxResults
    ensures var offered := RunOf(c, s, answers).offered;
            forall i, j :: 0 <= i < |offered| && 0 <= j < |offered| && offered[i].kind.Matching? && offered[j].kind.Matching? ==> i == j
    ensures var offered := RunOf(c, s, answers).offered;
            forall i, j :: 0 <= i < |offered| && 0 <= j < |offered| && offered[i].body.Asset? && offered[j].body.Asset? ==> i == j
  {
    hide RunOf, Allowed;
    RunOrdered(c, s, answers);
    EveryRequestSafe(c, s, answers);
    var r := RunOf(c, s, answers);
    assert |Pending(r.session)| <= 1 && (r.session.pending.Some? ==> Left(c, r.session) >= 1);
    MatchingOnce(c, r);
    forall i | 0 <= i < |r.offered| && r.offered[i].body.Asset? ensures r.offered[i].kind.Matching? {
      assert RequestOk(c, r.offered[i]);
    }
  }

  // ---- Completeness: what an error-free run asks for and recovers -------------------------------------

  datatype Label = AskDiscovery | AskCapabilities | AskStatus | AskAlgorithms | AskMatches | AskManifest(matched: Match) | AskReceipt(index: nat)

  function LabelOf(k: Kind): Label {
    match k
    case Discover => AskDiscovery
    case Capabilities => AskCapabilities
    case Status => AskStatus
    case SupportedAlgorithms => AskAlgorithms
    case Matching => AskMatches
    case Manifest(m, _) => AskManifest(m)
    case Receipt(i) => AskReceipt(i)
  }

  function Labels(rs: seq<Request>): (ls: seq<Label>)
    ensures |ls| == |rs|
  {
    if rs == [] then [] else Labels(rs[..|rs| - 1]) + [LabelOf(rs[|rs| - 1].kind)]
  }

  lemma LabelsAppend(rs: seq<Request>, q: Request)
    ensures Labels(rs + [q]) == Labels(rs) + [LabelOf(q.kind)]
  {
    assert (rs + [q])[..|rs|] == rs;
  }

  /** The requests up to and including the query. */
  function Opening(c: Config): seq<Label> {
    [AskDiscovery, AskCapabilities] + (if c.fetchStatus then [AskStatus] else []) + [AskAlgorithms, AskMatches]
  }

  /** The requests for the first `n` matches. */
  function Fetches(c: Config, ms: seq<Match>, n: nat): (ls: seq<Label>)
    requires n <= |ms|
    ensures |ls| == if c.fetchReceipts then 2 * n else n
  {
    if n == 0 then []
    else Fetches(c, ms, n - 1) + [AskManifest(ms[n - 1])] + if c.fetchReceipts then [AskReceipt(n - 1)] else []
  }

  /** Where in the run the manifest of match `i` is asked for. */
  function Position(c: Config, i: nat): nat {
    |Opening(c)| + if c.fetchReceipts then 2 * i else i
  }

  /** Recovered entry `i` is match `i`, with the store that was answered for it and its verification. */
  ghost predicate RecoveredOk(c: Config, ms: seq<Match>, answers: seq<Answer>, r: Recovered, i: nat)
    requires i < |ms|
  {
    && r.matched == ms[i]
    && Position(c, i) < |answers| && r.store == answers[Position(c, i)].bytes
    && c.world.verify(c.asset, r.store, c.mime) == Some(r.report)
  }

  /** The receipt is what the answer after the manifest's was read as, if receipts are fetched. */
  ghost predicate ReceiptOk(c: Config, answers: seq<Answer>, r: Recovered, i: nat) {
    if c.fetchReceipts then
      Position(c, i) + 1 < |answers| && r.receipt.Some? && r.receipt == c.world.parseReceipt(answers[Position(c, i) + 1].bytes)
    else r.receipt.None?
  }

  /** The first `n` matches are recovered, with their receipts if these are fetched. */
  ghost predicate AllRecovered(c: Config, s: Session, ms: seq<Match>, answers: seq<Answer>, n: nat) {
    && n <= |ms| && n <= |s.recovered|
    && (forall i :: 0 <= i < n ==> RecoveredOk(c, ms, answers, s.recovered[i], i) && ReceiptOk(c, answers, s.recovered[i], i))
  }

  /** The documents a session keeps are what the answers to its first requests were read as. */
  ghost predicate Documents(c: Config, s: Session, answers: seq<Answer>) {
    && |answers| + 1 >= |Opening(c)|
    && s.discovery.Some? && s.discovery == c.world.parseDiscovery(answers[0].bytes)
    && s.capabilities.Some? && s.capabilities == c.world.parseCapabilities(answers[1].bytes)
    && s.algorithms.Some? && s.algorithms == c.world.parseAlgorithms(answers[|Opening(c)| - 2].bytes)
    && (if c.fetchStatus then s.status.Some? && s.status == c.world.parseStatus(answers[2].bytes) else s.status.None?)
  }

  /** The same of the first two. */
  ghost predicate FirstTwo(c: Config, s: Session, answers: seq<Answer>) {
    && |answers| >= 2
    && s.discovery.Some? && s.discovery == c.world.parseDiscovery(answers[0].bytes)
    && s.capabilities.Some? && s.capabilities == c.world.parseCapabilities(answers[1].bytes)
  }

  /** An error-free run before the matches are known: `k` is the pending request. */
  ghost predicate Opened(c: Config, r: Run, answers: seq<Answer>, k: Kind) {
    var s, ls := r.session, Labels(r.offered);
    && s.recovered == [] && r.returned.None? && |r.offered| == |answers| + 1
    && match k
       case Discover => ls == [AskDiscovery] && s.status.None?
       case Capabilities =>
         && ls == [AskDiscovery, AskCapabilities] && s.status.None?
         && s.discovery.Some? && s.discovery == c.world.parseDiscovery(answers[0].bytes)
       case Status => c.fetchStatus && ls == [AskDiscovery, AskCapabilities, AskStatus] && FirstTwo(c, s, answers)
       case SupportedAlgorithms =>
         && ls + [AskMatches] == Opening(c) && FirstTwo(c, s, answers)
         && (if c.fetchStatus then s.status.Some? && s.status == c.world.parseStatus(answers[2].bytes) else s.status.None?)
       case _ => ls == Opening(c) && Documents(c, s, answers)
  }

  /** An error-free run once the matches are known: the first `n` are dealt with. */
  ghost predicate Fetching(c: Config, r: Run, answers: seq<Answer>) {
    && r.returned.Some? && Documents(c, r.session, answers)
    && |answers| >= |Opening(c)| && c.world.parseMatches(answers[|Opening(c)| - 1].bytes) == r.returned
    && var s, ms, ls := r.session, r.returned.value, Labels(r.offered);
       |ms| <= c.maxResults &&
       match s.pending
       case None => |s.recovered| == |ms| && AllRecovered(c, s, ms, answers, |ms|) && ls == Opening(c) + Fetches(c, ms, |ms|) && |ls| == |answers|
       case Some(q) =>
         && |ls| == |answers| + 1
         && match q.kind
            case Manifest(m, _) =>
              var n := |s.recovered|;
              && n < |ms| && m == ms[n] && s.matches == ms[n + 1..] && AllRecovered(c, s, ms, answers, n)
              && ls == Opening(c) + Fetches(c, ms, n) + [AskManifest(m)]
            case Receipt(n) =>
              && n + 1 == |s.recovered| <= |ms| && s.matches == ms[n + 1..] && AllRecovered(c, s, ms, answers, n)
              && RecoveredOk(c, ms, answers, s.recovered[n], n) && s.recovered[n].receipt.None? && c.fetchReceipts
              && ls == Opening(c) + Fetches(c, ms, n) + [AskManifest(ms[n]), AskReceipt(n)]
            case _ => false
  }

  ghost predicate Progress(c: Config, r: Run, answers: seq<Answer>) {
    if r.session.pending.Some? && Phase(r.session.pending.value.kind) < 5 then Opened(c, r, answers, r.session.pending.value.kind)
    else Fetching(c, r, answers)
  }

  lemma OpeningStep(c: Config, r: Run, answers: seq<Answer>, a: Answer)
    requires SessionOk(r.session) && r.session.pending.Some? && Phase(r.session.pending.value.kind) < 4 && Progress(c, r, answers)
    requires Accept(c, r.session, a).1.Ok?
    ensures Progress(c, After(c, r, a), answers + [a])
  {
    hide Directory, Supported, QueryParts, Advertised, Resolve, Join, RequireAllowed, Labels, CapabilitiesUrl;
    var n := After(c, r, a);
    LabelsAppend(r.offered, n.session.pending.value);
  }

  /** More answers change nothing of what is recovered. */
  lemma RecoveredStays(c: Config, s: Session, t: Session, ms: seq<Match>, answers: seq<Answer>, a: Answer, n: nat)
    requires AllRecovered(c, s, ms, answers, n) && n <= |t.recovered| && forall i :: 0 <= i < n ==> t.recovered[i] == s.recovered[i]
    ensures AllRecovered(c, t, ms, answers + [a], n)
  {
    forall i | 0 <= i < n ensures RecoveredOk(c, ms, answers + [a], t.recovered[i], i) {
      assert RecoveredOk(c, ms, answers, s.recovered[i], i);
    }
  }

  /** Asking for the next manifest once `n` matches are dealt with. */
  lemma NextManifestStep(c: Config, s: Session, r: Run, answers: seq<Answer>, ms: seq<Match>, n: nat)
    requires s.pending.None? && n == |s.recovered| <= |ms| <= c.maxResults && s.matches == ms[n..]
    requires AllRecovered(c, s, ms, answers, n) && Documents(c, s, answers)
    requires |answers| >= |Opening(c)| && c.world.parseMatches(answers[|Opening(c)| - 1].bytes) == Some(ms)
    requires Labels(r.offered) == Opening(c) + Fetches(c, ms, n) && |r.offered| == |answers| && NextManifest(c, s).1.Ok?
    ensures var t := NextManifest(c, s).0; Fetching(c, Run(t, r.clean, r.offered + Pending(t), Some(ms)), answers)
    ensures var t := NextManifest(c, s).0; t.pending.Some? ==> t.pending.value.kind.Manifest?
  {
    hide ManifestRequest, Labels, Opening, Fetches, Documents;
    var t := NextManifest(c, s).0;
    if n < |ms| {
      ManifestRequestOk(c, s, ms[n]);
      LabelsAppend(r.offered, t.pending.value);
      KeptRecovered(c, s, t, ms, answers, n);
      DocumentsKept(c, s, t, answers, answers);
    } else {
      assert r.offered + Pending(t) == r.offered;
      KeptRecovered(c, s, t, ms, answers, n);
      DocumentsKept(c, s, t, answers, answers);
    }
  }

  lemma KeptRecovered(c: Config, s: Session, t: Session, ms: seq<Match>, answers: seq<Answer>, n: nat)
    requires AllRecovered(c, s, ms, answers, n) && t.recovered == s.recovered
    ensures AllRecovered(c, t, ms, answers, n)
  {
  }

  lemma DocumentsKept(c: Config, s: Session, t: Session, answers: seq<Answer>, more: seq<Answer>)
    requires Documents(c, s, answers) && answers <= more && t.discovery == s.discovery && t.capabilities == s.capabilities
    requires t.algorithms == s.algorithms && t.status == s.status
    ensures Documents(c, t, more)
  {
  }

  lemma MatchingStep(c: Config, r: Run, answers: seq<Answer>, a: Answer)
    requires SessionOk(r.session) && r.session.pending.Some? && r.session.pending.value.kind.Matching? && Progress(c, r, answers)
    requires Accept(c, r.session, a).1.Ok?
    ensures Progress(c, After(c, r, a), answers + [a])
  {
    hide NextManifest, Labels, Opening, MatchesDefect, Documents;
    var s := r.session.(pending := None);
    var ms := c.world.parseMatches(a.bytes).value;
    var s1 := s.(matches := ms);
    DocumentsKept(c, r.session, s1, answers, answers + [a]);
    assert Opening(c) + Fetches(c, ms, 0) == Opening(c);
    assert ms[0..] == ms;
    NextManifestStep(c, s1, r, answers + [a], ms, 0);
  }

  /** The entry just recovered. */
  lemma JustRecovered(c: Config, s: Session, s1: Session, ms: seq<Match>, answers: seq<Answer>, a: Answer, n: nat, report: seq<byte>)
    requires n < |ms| && n == |s.recovered| && AllRecovered(c, s, ms, answers, n) && Position(c, n) == |answers|
    requires s1.recovered == s.recovered + [Recovered(ms[n], a.bytes, report, None)] && c.world.verify(c.asset, a.bytes, c.mime) == Some(report)
    ensures AllRecovered(c, s1, ms, answers + [a], n) && RecoveredOk(c, ms, answers + [a], s1.recovered[n], n)
    ensures !c.fetchReceipts ==> AllRecovered(c, s1, ms, answers + [a], n + 1)
  {
    hide Opening;
    RecoveredStays(c, s, s1, ms, answers, a, n);
  }

  lemma ManifestStep(c: Config, r: Run, answers: seq<Answer>, a: Answer)
    requires SessionOk(r.session) && r.session.pending.Some? && r.session.pending.value.kind.Manifest? && Progress(c, r, answers)
    requires Accept(c, r.session, a).1.Ok?
    ensures Progress(c, After(c, r, a), answers + [a])
  {
    hide NextManifest, Labels, Opening, AllRecovered, RecoveredOk, Documents, ReceiptEndpoint, Allowed, AcceptDiscovery, AcceptCapabilities,
         AcceptStatus, AcceptAlgorithms, AcceptMatches, AcceptReceipt, Opened;
    assert Fetching(c, r, answers);
    var s, ms, n := r.session.(pending := None), r.returned.value, |r.session.recovered|;
    var report := c.world.verify(c.asset, a.bytes, c.mime).value;
    var s1 := s.(recovered := s.recovered + [Recovered(ms[n], a.bytes, report, None)]);
    KeptRecovered(c, r.session, s, ms, answers, n);
    JustRecovered(c, s, s1, ms, answers, a, n, report);
    DocumentsKept(c, r.session, s1, answers, answers + [a]);
    var done := After(c, r, a);
    if c.fetchReceipts {
      LabelsAppend(r.offered, done.session.pending.value);
      KeptRecovered(c, s1, done.session, ms, answers + [a], n);
      DocumentsKept(c, s1, done.session, answers + [a], answers + [a]);
      assert Opening(c) + Fetches(c, ms, n) + [AskManifest(ms[n])] + [AskReceipt(n)]
          == Opening(c) + Fetches(c, ms, n) + [AskManifest(ms[n]), AskReceipt(n)];
    } else {
      assert Opening(c) + Fetches(c, ms, n) + [AskManifest(ms[n])] == Opening(c) + Fetches(c, ms, n + 1);
      NextManifestStep(c, s1, r, answers + [a], ms, n + 1);
    }
  }

  /** The receipt just stored. */
  lemma JustReceipted(c: Config, s: Session, s1: Session, ms: seq<Match>, answers: seq<Answer>, a: Answer, n: nat, receipt: seq<byte>)
    requires n < |ms| && n + 1 == |s.recovered| && AllRecovered(c, s, ms, answers, n) && RecoveredOk(c, ms, answers, s.recovered[n], n)
    requires s1.recovered == s.recovered[n := s.recovered[n].(receipt := Some(receipt))] && c.fetchReceipts
    requires Position(c, n) + 1 == |answers| && c.world.parseReceipt(a.bytes) == Some(receipt)
    ensures AllRecovered(c, s1, ms, answers + [a], n + 1)
  {
    RecoveredStays(c, s, s1, ms, answers, a, n);
  }

  lemma ReceiptStep(c: Config, r: Run, answers: seq<Answer>, a: Answer)
    requires SessionOk(r.session) && r.session.pending.Some? && r.session.pending.value.kind.Receipt? && Progress(c, r, answers)
    requires Accept(c, r.session, a).1.Ok?
    ensures Progress(c, After(c, r, a), answers + [a])
  {
    hide NextManifest, Labels, Opening, AllRecovered, RecoveredOk, Documents;
    var s, ms, n := r.session.(pending := None), r.returned.value, r.session.pending.value.kind.index;
    var receipt := c.world.parseReceipt(a.bytes).value;
    var s1 := s.(recovered := s.recovered[n := s.recovered[n].(receipt := Some(receipt))]);
    KeptRecovered(c, r.session, s, ms, answers, n);
    JustReceipted(c, s, s1, ms, answers, a, n, receipt);
    DocumentsKept(c, r.session, s1, answers, answers + [a]);
    assert Opening(c) + Fetches(c, ms, n) + [AskManifest(ms[n]), AskReceipt(n)] == Opening(c) + Fetches(c, ms, n + 1);
    NextManifestStep(c, s1, r, answers + [a], ms, n + 1);
  }

  lemma {:induction false} RunProgress(c: Config, s: Session, answers: seq<Answer>)
    requires Created(c, s) && SessionOk(s) && RunOf(c, s, answers).clean
    ensures Progress(c, RunOf(c, s, answers), answers)
  {
    hide Accept, Progress;
    if answers == [] {
      StartProgress(c, s);
    } else {
      var prefix, a := answers[..|answers| - 1], answers[|answers| - 1];
      RunProgress(c, s, prefix);
      var r := RunOf(c, s, prefix);
      assert prefix + [a] == answers;
      IdleFails(c, r.session, a);
      match r.session.pending.value.kind
      case Matching => MatchingStep(c, r, prefix, a);
      case Manifest(_, _) => ManifestStep(c, r, prefix, a);
      case Receipt(_) => ReceiptStep(c, r, prefix, a);
      case _ => OpeningStep(c, r, prefix, a);
    }
  }

  lemma StartProgress(c: Config, s: Session)
    requires Created(c, s)
    ensures Progress(c, Run(s, true, Pending(s), None), [])
  {
    LabelsAppend([], s.pending.value);
    assert [] + [s.pending.value] == Pending(s);
  }

  lemma IdleFails(c: Config, s: Session, a: Answer)
    requires SessionOk(s) && Accept(c, s, a).1.Ok?
    ensures s.pending.Some?
  {
  }

  /** An answer is taken only from the very address that was asked, within the limit set for it. */
  lemma NoRedirects(c: Config, s: Session, a: Answer)
    requires SessionOk(s) && Accept(c, s, a).1.Ok?
    ensures s.pending.Some? && c.world.parseUrl(a.finalUrl) == Some(s.pending.value.url) && |a.bytes| <= s.pending.value.maxResponse
  {
  }

  /** Every answer came from the address of the request it answers, within that request's limit. */
  ghost predicate FromAsked(c: Config, r: Run, answers: seq<Answer>) {
    && |answers| <= |r.offered|
    && forall i :: 0 <= i < |answers| ==>
         c.world.parseUrl(answers[i].finalUrl) == Some(r.offered[i].url) && |answers[i].bytes| <= r.offered[i].maxResponse
  }

  lemma PendingIsNext(c: Config, r: Run, answers: seq<Answer>)
    requires Progress(c, r, answers) && Ordered(c, r) && r.session.pending.Some?
    ensures |r.offered| == |answers| + 1 && r.offered[|answers|] == r.session.pending.value
  {
    hide Left, Opening, Fetches, AllRecovered, RecoveredOk, Documents, Follows;
  }

  lemma RunExtends(c: Config, s: Session, answers: seq<Answer>, a: Answer)
    requires SessionOk(s)
    ensures RunOf(c, s, answers + [a]) == After(c, RunOf(c, s, answers), a)
  {
    hide Accept, After;
    assert (answers + [a])[..|answers|] == answers;
  }

  lemma {:induction false} RunFromAsked(c: Config, s: Session, answers: seq<Answer>)
    requires Created(c, s) && SessionOk(s) && RunOf(c, s, answers).clean
    ensures FromAsked(c, RunOf(c, s, answers), answers)
  {
    hide Accept, Progress, Ordered, Created;
    if answers != [] {
      var prefix, a := answers[..|answers| - 1], answers[|answers| - 1];
      RunFromAsked(c, s, prefix);
      RunProgress(c, s, prefix);
      RunOrdered(c, s, prefix);
      var r := RunOf(c, s, prefix);
      NoRedirects(c, r.session, a);
      PendingIsNext(c, r, prefix);
    }
  }

  /** The documents handed over are what the answers to the first requests were read as. */
  ghost predicate Holds(c: Config, done: Resolution, answers: seq<Answer>) {
    && |answers| >= |Opening(c)|
    && c.world.parseDiscovery(answers[0].bytes) == Some(done.discovery)
    && c.world.parseCapabilities(answers[1].bytes) == Some(done.capabilities)
    && c.world.parseAlgorithms(answers[|Opening(c)| - 2].bytes) == Some(done.algorithms)
    && (if c.fetchStatus then done.status.Some? && c.world.parseStatus(answers[2].bytes) == done.status else done.status.None?)
  }

  /** An error-free run that has come to its end asked for exactly the planned documents in the planned order, can be
      finished, and recovered the returned matches one to one in order, each with the store its server answered, its own
      verification report, and the receipt answered for it if receipts were wanted. No answer came by way of a redirect. */
  lemma CompletedRun(c: Config, s: Session, answers: seq<Answer>)
    requires Created(c, s) && SessionOk(s) && RunOf(c, s, answers).clean && RunOf(c, s, answers).session.pending.None?
    ensures var r := RunOf(c, s, answers);
            && r.returned.Some? && |r.returned.value| <= c.maxResults && |answers| >= |Opening(c)|
            && c.world.parseMatches(answers[|Opening(c)| - 1].bytes) == r.returned
            && Labels(r.offered) == Opening(c) + Fetches(c, r.returned.value, |r.returned.value|) && |r.offered| == |answers|
            && FromAsked(c, r, answers) && Finish(r.session).Ok?
            && var done, ms := Finish(r.session).value, r.returned.value;
               && |done.recovered| == |ms| && Holds(c, done, answers)
               && forall i :: 0 <= i < |ms| ==>
                    RecoveredOk(c, ms, answers, done.recovered[i], i) && ReceiptOk(c, answers, done.recovered[i], i)
  {
    hide RunOf, Labels, Opening, Fetches, RecoveredOk, ReceiptOk, FromAsked;
    RunProgress(c, s, answers);
    RunFromAsked(c, s, answers);
  }

  // ---- Driving a session -----------------------------------------------------------------------------

  /** What a transport answers to the requests put to it, one after another: a body, or nothing if it failed or was blocked. */
  type Transport = (nat, Request) -> Option<seq<byte>>

  /** Put each request to the transport until none is pending, stopping at the first failure. It ends because every answer
      leaves less to ask. */
  function Conduct(c: Config, s: Session, transport: Transport, asked: nat): Checked<Resolution>
    requires SessionOk(s) && (c.query.Content? ==> c.query.consent.UploadAsset?)
    decreases Left(c, s)
  {
    if s.pending.None? then Finish(s)
    else
      var request := s.pending.value;
      var bytes := transport(asked, request);
      if bytes.None? then Err(TransportFailed)
      else
        var a := Answer(c.world.urlText(request.url), bytes.value);
        AcceptKeepsOk(c, s, a);
        AcceptOnward(c, s, a);
        var (s1, taken) := Accept(c, s, a);
        if taken.Err? then Err(taken.error) else Conduct(c, s1, transport, asked + 1)
  }

  /** The answers are what the transport gave to the offered requests. */
  ghost predicate Answered(r: Run, transport: Transport, answers: seq<Answer>) {
    |answers| <= |r.offered| && forall i :: 0 <= i < |answers| ==> transport(i, r.offered[i]) == Some(answers[i].bytes)
  }

  lemma AnsweredOnward(c: Config, r: Run, transport: Transport, answers: seq<Answer>, a: Answer)
    requires SessionOk(r.session) && Answered(r, transport, answers) && |answers| < |r.offered|
    requires transport(|answers|, r.offered[|answers|]) == Some(a.bytes)
    ensures Answered(After(c, r, a), transport, answers + [a])
  {
    hide Accept;
  }

  lemma AfterAnswered(c: Config, s: Session, answers: seq<Answer>, transport: Transport, a: Answer)
    requires Created(c, s) && SessionOk(s) && RunOf(c, s, answers).clean && Answered(RunOf(c, s, answers), transport, answers)
    requires var p := RunOf(c, s, answers).session.pending; p.Some? && transport(|answers|, p.value) == Some(a.bytes)
    ensures Answered(RunOf(c, s, answers + [a]), transport, answers + [a])
    ensures RunOf(c, s, answers + [a]) == After(c, RunOf(c, s, answers), a)
  {
    hide Accept, After, RunOf, Progress, Ordered, Created, Answered;
    RunProgress(c, s, answers);
    RunOrdered(c, s, answers);
    PendingIsNext(c, RunOf(c, s, answers), answers);
    RunExtends(c, s, answers, a);
    AnsweredOnward(c, RunOf(c, s, answers), transport, answers, a);
  }

  /** A conducted session that succeeds is an error-free run to its end over the transport's own answers. */
  lemma {:induction false} ConductedRun(c: Config, s: Session, answers: seq<Answer>, transport: Transport) returns (all: seq<Answer>)
    requires Created(c, s) && SessionOk(s) && RunOf(c, s, answers).clean && Answered(RunOf(c, s, answers), transport, answers)
    requires Conduct(c, RunOf(c, s, answers).session, transport, |answers|).Ok?
    ensures var r := RunOf(c, s, all);
            && r.clean && r.session.pending.None? && Answered(r, transport, all)
            && Finish(r.session) == Conduct(c, RunOf(c, s, answers).session, transport, |answers|)
    decreases Left(c, RunOf(c, s, answers).session)
  {
    hide Accept, Left, Finish, RunOf, Answered;
    var before := RunOf(c, s, answers).session;
    if before.pending.None? {
      all := answers;
    } else {
      var request := before.pending.value;
      var a := Answer(c.world.urlText(request.url), transport(|answers|, request).value);
      AcceptOnward(c, before, a);
      AcceptKeepsOk(c, before, a);
      AfterAnswered(c, s, answers, transport, a);
      all := ConductedRun(c, s, answers + [a], transport);
    }
  }

  /** Over any transport: a resolution that succeeds put at most 5 + 2 * maxResults requests to it, all as planned, and holds
      one recovered manifest for each returned match, in order. */
  lemma ResolutionMeans(c: Config, s: Session, transport: Transport) returns (answers: seq<Answer>)
    requires Created(c, s) && SessionOk(s) && Conduct(c, s, transport, 0).Ok?
    ensures var r, done := RunOf(c, s, answers), Conduct(c, s, transport, 0).value;
            && |answers| <= 5 + 2 * c.maxResults && Answered(r, transport, answers) && FromAsked(c, r, answers)
            && r.returned.Some? && Labels(r.offered) == Opening(c) + Fetches(c, r.returned.value, |r.returned.value|)
            && var ms := r.returned.value;
               && |done.recovered| == |ms| && Holds(c, done, answers)
               && forall i :: 0 <= i < |ms| ==>
                    RecoveredOk(c, ms, answers, done.recovered[i], i) && ReceiptOk(c, answers, done.recovered[i], i)
  {
    NothingAsked(c, s, transport);
    hide RunOf, Labels, Opening, Fetches, RecoveredOk, ReceiptOk, Holds, Conduct, Finish, FromAsked;
    answers := ConductedRun(c, s, [], transport);
    CompletedRun(c, s, answers);
    RequestBound(c, s, answers);
  }

  lemma NothingAsked(c: Config, s: Session, transport: Transport)
    requires SessionOk(s)
    ensures RunOf(c, s, []).clean && RunOf(c, s, []).session == s && Answered(RunOf(c, s, []), transport, [])
  {
  }
}
