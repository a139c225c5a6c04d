/** Fetching external evidence: consent, one body per address, and one budget for a whole verification. */
module Online {
  import opened Octets
  import opened Texts

  type Document = seq<byte>

  const MAX_REQUESTS: nat := 16
  const MAX_RECEIVED_BYTES: nat := 0x400_0000
  const MAX_MANIFEST_BYTES: nat := 0x400_0000
  const MAX_OCSP_BYTES: nat := 0x1_0000
  const MAX_DID_DOCUMENT_BYTES: nat := 0x4_0000
  const MAX_EXTERNAL_DATA_BYTES: nat := 0x400_0000

  datatype Need =
    | RemoteManifest(uri: Text)
    | Ocsp(certificate: Text, requestDer: seq<byte>, responder: Text)
    | DidDocument(did: Text, url: Text)
    | ExternalData(uri: Text, assertion: Text)
  {
    function Address(): Text {
      match this
      case RemoteManifest(uri) => uri
      case Ocsp(_, _, responder) => responder
      case DidDocument(_, url) => url
      case ExternalData(uri, _) => uri
    }
  }

  // ---- Transport --------------------------------------------------------------------------------

  /** One bounded request. A fetcher may send at most `remaining` HTTP requests for it. */
  datatype FetchRequest = FetchRequest(url: Text, body: Option<seq<byte>>, limit: nat, allowHttp: bool, remaining: nat)

  datatype Fetched = Fetched(bytes: seq<byte>, mediaType: Option<Text>, used: nat)

  /** `blocked` when refused here rather than by the network; `received` when an oversized body arrived. */
  datatype FetchError = FetchError(blocked: bool, received: bool, used: nat, receivedBytes: nat)

  type Response = Result<Fetched, FetchError>

  /** Consent, the network and JSON, none of which is modelled further. Answers may differ from one question to the next. */
  datatype Outside = Outside(
    consent: (nat, Need) -> bool,
    fetch: (nat, FetchRequest) -> Response,
    parseDocument: seq<byte> -> Option<Document>)

  /** A call that reached the transport. */
  datatype Call = Call(need: Need, request: FetchRequest, response: Response)

  function Used(r: Response): nat {
    match r case Ok(f) => f.used case Err(e) => e.used
  }

  function Received(r: Response): nat {
    match r case Ok(f) => |f.bytes| case Err(e) => e.receivedBytes
  }

  datatype Budget = Budget(requests: nat, bytes: nat) {
    predicate Spent() {
      requests == 0 || bytes == 0
    }

    function Less(r: Response): Budget {
      Budget(if Used(r) <= requests then requests - Used(r) else 0, if Received(r) <= bytes then bytes - Received(r) else 0)
    }
  }

  function RequestFor(need: Need, b: Budget): FetchRequest {
    match need
    case RemoteManifest(uri) => FetchRequest(uri, None, Min(MAX_MANIFEST_BYTES, b.bytes), false, b.requests)
    case Ocsp(_, der, responder) => FetchRequest(responder, Some(der), Min(MAX_OCSP_BYTES, b.bytes), true, b.requests)
    case DidDocument(_, url) => FetchRequest(url, None, Min(MAX_DID_DOCUMENT_BYTES, b.bytes), false, b.requests)
    case ExternalData(uri, _) => FetchRequest(uri, None, Min(MAX_EXTERNAL_DATA_BYTES, b.bytes), false, b.requests)
  }

  // ---- State ---------------------------------------------------------------------------------------

  datatype Outcome =
    | Retrieved(bytes: seq<byte>, mediaType: Option<Text>, byCaller: bool)
    | Unavailable(byCaller: bool)

  datatype AttemptOutcome = WasFetched | Failed | WasBlocked | Skipped
  datatype Attempt = Attempt(need: Need, outcome: AttemptOutcome)

  /** What the report says a fetch could settle. */
  datatype Needed = NeedsManifest(uri: Text) | NeedsSegment(uri: Text) | NeedsData(uri: Text) | NeedsDocument(did: Text, url: Text) | NeedsOcsp(need: Need)

  datatype State = State(
    outcomes: map<Text, Outcome>,
    budget: Budget,
    enabled: bool,
    needed: seq<Needed>,
    attempts: seq<Attempt>,
    gets: set<Text>,
    ocsp: set<(Text, seq<byte>)>,
    calls: seq<Call>,
    asked: nat)

  /** Evidence the caller brought. An address given both a body and an unreachable mark counts as retrieved. */
  function FromCaller(data: map<Text, seq<byte>>, mediaTypes: map<Text, Text>, unreachable: set<Text>): map<Text, Outcome> {
    map uri | uri in data.Keys + unreachable ::
      if uri in data then Retrieved(data[uri], if uri in mediaTypes then Some(mediaTypes[uri]) else None, true) else Unavailable(true)
  }

  function Start(caller: map<Text, Outcome>, enabled: bool): State {
    State(caller, Budget(MAX_REQUESTS, MAX_RECEIVED_BYTES), enabled, [], [], {}, {}, [], 0)
  }

  function IsCaller(s: State, uri: Text): bool {
    uri in s.outcomes && s.outcomes[uri].byCaller
  }

  function AddNeeded(s: State, n: Needed): State {
    if n in s.needed then s else s.(needed := s.needed + [n])
  }

  // ---- Fetching ----------------------------------------------------------------------------------------

  function OutcomeOf(r: Response): AttemptOutcome {
    match r case Ok(_) => WasFetched case Err(e) => if e.blocked then WasBlocked else Failed
  }

  const REFUSED: Response := Err(FetchError(true, false, 0, 0))

  /** Within the budget through the transport, otherwise skipped without it. */
  function Fetch(x: Outside, s: State, need: Need): (State, Response) {
    if s.budget.Spent() then (s.(attempts := s.attempts + [Attempt(need, Skipped)]), REFUSED)
    else
      var q := RequestFor(need, s.budget);
      var r := x.fetch(|s.calls|, q);
      (s.(budget := s.budget.Less(r), calls := s.calls + [Call(need, q, r)], attempts := s.attempts + [Attempt(need, OutcomeOf(r))]), r)
  }

  /** What a response settles for good. A refusal without a body settles nothing. */
  function Settles(r: Response): Option<Outcome> {
    match r
    case Ok(f) => Some(Retrieved(f.bytes, f.mediaType, false))
    case Err(e) => if !e.blocked || e.received then Some(Unavailable(false)) else None
  }

  function Consent(x: Outside, s: State, need: Need): (State, bool) {
    var yes := x.consent(s.asked, need);
    (s.(asked := s.asked + 1, enabled := s.enabled || yes), yes)
  }

  /** Get the body at an address unless it has an outcome or was asked for before. The number tells which attempt was made. */
  function GetBody(x: Outside, s: State, uri: Text, need: Need): (State, Option<nat>) {
    if uri in s.outcomes || uri in s.gets then (s, None)
    else
      var (s1, yes) := Consent(x, s.(gets := s.gets + {uri}), need);
      if !yes then (s1, None)
      else
        var (s2, r) := Fetch(x, s1, need);
        var settled := Settles(r);
        (if settled.Some? then s2.(outcomes := s2.outcomes[uri := settled.value]) else s2, Some(|s1.attempts|))
  }

  // ---- Rounds --------------------------------------------------------------------------------------------

  datatype GraphRequest = GraphRequest(uri: Text, segment: bool)

  function Frontier(x: Outside, s: State, g: GraphRequest, terminalRoot: bool): State {
    var needed := if terminalRoot then NeedsManifest(g.uri) else if g.segment then NeedsSegment(g.uri) else NeedsData(g.uri);
    var s1 := if IsCaller(s, g.uri) then s else AddNeeded(s, needed);
    var need := if terminalRoot then RemoteManifest(g.uri)
                else ExternalData(g.uri, if g.segment then "c2pa.hash.segment" else "c2pa.external-resource");
    GetBody(x, s1, g.uri, need).0
  }

  datatype DidRequest = DidRequest(did: Text, url: Text)

  /** Mark the attempt that brought an unusable document. */
  function Unusable(s: State, attempt: Option<nat>): State {
    if attempt.Some? && attempt.value < |s.attempts| then
      s.(attempts := s.attempts[attempt.value := s.attempts[attempt.value].(outcome := Failed)])
    else s
  }

  /** One unpinned DID: its document if a usable body is at hand or can be fetched. */
  function ResolveDid(x: Outside, s: State, q: DidRequest): (State, Option<Document>) {
    var s1 := if IsCaller(s, q.url) then s else AddNeeded(s, NeedsDocument(q.did, q.url));
    var (s2, attempt) := GetBody(x, s1, q.url, DidDocument(q.did, q.url));
    if q.url !in s2.outcomes || s2.outcomes[q.url].Unavailable? then (s2, None)
    else
      var bytes := s2.outcomes[q.url].bytes;
      if |bytes| > MAX_DID_DOCUMENT_BYTES then (Unusable(s2, attempt), None)
      else
        var document := x.parseDocument(bytes);
        if document.None? then (Unusable(s2, attempt), None) else (s2, document)
  }

  function ResolveDids(x: Outside, s: State, qs: seq<DidRequest>, pinned: set<Text>): (State, map<Text, Document>) {
    if qs == [] then (s, map[])
    else
      var q := qs[|qs| - 1];
      var (s1, documents) := ResolveDids(x, s, qs[..|qs| - 1], pinned);
      if q.did in pinned then (s1, documents)
      else
        var (s2, document) := ResolveDid(x, s1, q);
        (s2, if document.Some? then documents[q.did := document.value] else documents)
  }

  datatype OcspUpdate = OcspUpdate(responses: map<Text, seq<byte>>, unreachable: seq<Text>)

  /** What a response says of a certificate. The empty response stands for a body that was discarded. */
  function Tell(u: OcspUpdate, certificate: Text, r: Response): OcspUpdate {
    match r
    case Ok(f) => if certificate in u.responses then u else u.(responses := u.responses[certificate := f.bytes])
    case Err(e) =>
      if e.received then (if certificate in u.responses then u else u.(responses := u.responses[certificate := []]))
      else if !e.blocked then (if certificate in u.unreachable then u else u.(unreachable := u.unreachable + [certificate]))
      else u
  }

  /** One OCSP need; other needs are passed over. */
  function FetchOcspOne(x: Outside, s: State, u: OcspUpdate, need: Need): (State, OcspUpdate) {
    if !need.Ocsp? then (s, u)
    else
      var key := (need.certificate, need.requestDer);
      var s1 := AddNeeded(s, NeedsOcsp(need));
      if key in s1.ocsp then (s1, u)
      else
        var (s2, yes) := Consent(x, s1.(ocsp := s1.ocsp + {key}), need);
        if !yes then (s2, u)
        else
          var (s3, r) := Fetch(x, s2, need);
          (s3, Tell(u, need.certificate, r))
  }

  function FetchOcsp(x: Outside, s: State, needs: seq<Need>): (State, OcspUpdate) {
    if needs == [] then (s, OcspUpdate(map[], []))
    else
      var (s1, u) := FetchOcsp(x, s, needs[..|needs| - 1]);
      FetchOcspOne(x, s1, u, needs[|needs| - 1])
  }

  datatype Round =
    | GraphRound(request: GraphRequest, terminalRoot: bool)
    | DidRound(requests: seq<DidRequest>, pinned: set<Text>)
    | OcspRound(needs: seq<Need>)

  function Play(x: Outside, s: State, r: Round): State {
    match r
    case GraphRound(g, terminalRoot) => Frontier(x, s, g, terminalRoot)
    case DidRound(qs, pinned) => ResolveDids(x, s, qs, pinned).0
    case OcspRound(needs) => FetchOcsp(x, s, needs).0
  }

  function PlayAll(x: Outside, s: State, rs: seq<Round>): State {
    if rs == [] then s else Play(x, PlayAll(x, s, rs[..|rs| - 1]), rs[|rs| - 1])
  }
}
