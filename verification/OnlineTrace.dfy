/** What a verification asks, fetches and reports, stated over the list of what its rounds visit. */
module OnlineTrace {
  import opened Octets
  import opened Texts
  import opened Online
  import opened OnlineEvidence

  // ---- What the rounds visit ---------------------------------------------------------------------

  datatype Visit = GraphVisit(request: GraphRequest, terminalRoot: bool) | DidVisit(did: DidRequest) | OcspVisit(ocsp: Need)
  {
    predicate Proper() {
      OcspVisit? ==> ocsp.Ocsp?
    }

    /** What a visit would fetch. */
    function Wants(): Need {
      match this
      case GraphVisit(g, true) => RemoteManifest(g.uri)
      case GraphVisit(g, false) => ExternalData(g.uri, if g.segment then "c2pa.hash.segment" else "c2pa.external-resource")
      case DidVisit(q) => DidDocument(q.did, q.url)
      case OcspVisit(need) => need
    }

    /** What a visit adds to the report. */
    function Shows(): Needed {
      match this
      case GraphVisit(g, true) => NeedsManifest(g.uri)
      case GraphVisit(g, false) => if g.segment then NeedsSegment(g.uri) else NeedsData(g.uri)
      case DidVisit(q) => NeedsDocument(q.did, q.url)
      case OcspVisit(need) => NeedsOcsp(need)
    }
  }

  function Unpinned(qs: seq<DidRequest>, pinned: set<Text>): seq<Visit> {
    if qs == [] then []
    else Unpinned(qs[..|qs| - 1], pinned) + if qs[|qs| - 1].did in pinned then [] else [DidVisit(qs[|qs| - 1])]
  }

  function OcspVisits(needs: seq<Need>): seq<Visit> {
    if needs == [] then []
    else OcspVisits(needs[..|needs| - 1]) + if needs[|needs| - 1].Ocsp? then [OcspVisit(needs[|needs| - 1])] else []
  }

  function VisitsOf(r: Round): seq<Visit> {
    match r
    case GraphRound(g, terminalRoot) => [GraphVisit(g, terminalRoot)]
    case DidRound(qs, pinned) => Unpinned(qs, pinned)
    case OcspRound(needs) => OcspVisits(needs)
  }

  function AllVisits(rs: seq<Round>): seq<Visit> {
    if rs == [] then [] else AllVisits(rs[..|rs| - 1]) + VisitsOf(rs[|rs| - 1])
  }

  // ---- What a visit leads to -------------------------------------------------------------------------

  /** The caller already brought what the visit would fetch. */
  predicate Brought(given: set<Text>, v: Visit) {
    !v.Wants().Ocsp? && v.Wants().Address() in given
  }

  /** Consent is asked for the first visit of its kind that the caller brought nothing for. */
  predicate Asks(given: set<Text>, vs: seq<Visit>, k: nat)
    requires k < |vs|
  {
    !Brought(given, vs[k]) && forall j :: 0 <= j < k ==> !Alike(vs[j].Wants(), vs[k].Wants())
  }

  /** How many questions the visits put. */
  function Questions(given: set<Text>, vs: seq<Visit>): nat {
    if vs == [] then 0 else Questions(given, vs[..|vs| - 1]) + if Asks(given, vs, |vs| - 1) then 1 else 0
  }

  /** Visit `k` asks for consent, and its own question is answered with yes for its own need. */
  predicate Agreed(x: Outside, given: set<Text>, vs: seq<Visit>, k: nat)
    requires k < |vs|
  {
    Asks(given, vs, k) && x.consent(Questions(given, vs[..k]), vs[k].Wants())
  }

  function AgreedVisits(x: Outside, given: set<Text>, vs: seq<Visit>): set<nat> {
    set k: nat | k < |vs| && Agreed(x, given, vs, k)
  }

  /** The members of `chosen` in increasing order. */
  ghost predicate Lists(at: seq<nat>, chosen: set<nat>) {
    (forall i, j :: 0 <= i < j < |at| ==> at[i] < at[j]) && forall k :: k in at <==> k in chosen
  }

  // ---- What is fetched ---------------------------------------------------------------------------------

  function Rest(whole: nat, spent: nat): nat {
    if spent <= whole then whole - spent else 0
  }

  function RequestsLeft(calls: seq<Call>): nat {
    Rest(MAX_REQUESTS, TotalUsed(calls))
  }

  function BytesLeft(calls: seq<Call>): nat {
    Rest(MAX_RECEIVED_BYTES, TotalReceived(calls))
  }

  function LimitFor(need: Need): nat {
    match need
    case RemoteManifest(_) => MAX_MANIFEST_BYTES
    case Ocsp(_, _, _) => MAX_OCSP_BYTES
    case DidDocument(_, _) => MAX_DID_DOCUMENT_BYTES
    case ExternalData(_, _) => MAX_EXTERNAL_DATA_BYTES
  }

  /** Call `i` asks for what its need names within what the earlier calls left, and holds what the transport answered. */
  predicate CallFor(x: Outside, calls: seq<Call>, i: nat, need: Need)
    requires i < |calls|
  {
    var q, bytes, requests := calls[i].request, BytesLeft(calls[..i]), RequestsLeft(calls[..i]);
    && bytes > 0 && requests > 0
    && calls[i].need == need && q.url == need.Address() && q.allowHttp == need.Ocsp?
    && q.body == (if need.Ocsp? then Some(need.requestDer) else None)
    && q.limit == (if bytes < LimitFor(need) then bytes else LimitFor(need)) && q.remaining == requests
    && calls[i].response == x.fetch(i, q)
  }

  /** How an answered call is reported: a document that cannot be used counts as failed. */
  function Judged(x: Outside, call: Call): AttemptOutcome {
    match call.response
    case Ok(f) =>
      if call.need.DidDocument? && (|f.bytes| > MAX_DID_DOCUMENT_BYTES || x.parseDocument(f.bytes).None?) then Failed else WasFetched
    case Err(e) => if e.blocked then WasBlocked else Failed
  }

  /** One attempt per listed visit, in order. Attempts go to the transport until the budget is spent, and are skipped from then on. */
  ghost predicate Traced(x: Outside, vs: seq<Visit>, at: seq<nat>, s: State) {
    && (forall i :: 0 <= i < |at| ==> at[i] < |vs|)
    && |s.calls| <= |s.attempts| == |at|
    && (|s.calls| < |s.attempts| ==> RequestsLeft(s.calls) == 0 || BytesLeft(s.calls) == 0)
    && (forall i :: 0 <= i < |s.calls| ==> CallFor(x, s.calls, i, vs[at[i]].Wants()) && s.attempts[i] == Attempt(vs[at[i]].Wants(), Judged(x, s.calls[i])))
    && (forall i :: |s.calls| <= i < |at| ==> s.attempts[i] == Attempt(vs[at[i]].Wants(), Skipped))
  }

  // ---- What is reported ----------------------------------------------------------------------------------

  /** `at` are the places where `all` holds something for the first time, and `xs` is what it holds there. */
  ghost predicate Firsts<T(!new)>(xs: seq<T>, all: seq<Option<T>>, at: seq<nat>) {
    && |at| == |xs|
    && (forall i, j :: 0 <= i < j < |at| ==> at[i] < at[j])
    && (forall i :: 0 <= i < |at| ==> at[i] < |all| && all[at[i]] == Some(xs[i]) && forall k :: 0 <= k < at[i] ==> all[k] != all[at[i]])
    && forall k :: 0 <= k < |all| && all[k].Some? ==> all[k].value in xs
  }

  /** Everything in `all`, once each, in the order of first mention. */
  ghost predicate OnceEach<T(!new)>(xs: seq<T>, all: seq<Option<T>>) {
    exists at: seq<nat> :: Firsts(xs, all, at)
  }

  lemma OnceMore<T(!new)>(xs: seq<T>, all: seq<Option<T>>, o: Option<T>)
    requires OnceEach(xs, all)
    ensures OnceEach(if o.None? || o.value in xs then xs else xs + [o.value], all + [o])
  {
    var at: seq<nat> :| Firsts(xs, all, at);
    var more := all + [o];
    if o.None? || o.value in xs {
      assert Firsts(xs, more, at);
    } else {
      forall k | 0 <= k < |all| ensures more[k] != o {
        assert all[k].Some? ==> all[k].value in xs;
      }
      var longer := xs + [o.value];
      assert forall k :: 0 <= k < |all| && all[k].Some? ==> all[k].value in longer by {
        assert forall y :: y in xs ==> y in longer;
      }
      assert o.value == longer[|xs|];
      assert Firsts(longer, more, at + [|all|]);
    }
  }

  /** What each visit raises, nothing if the caller brought it. */
  function Raises(given: set<Text>, vs: seq<Visit>): seq<Option<Needed>> {
    seq(|vs|, k requires 0 <= k < |vs| => if Brought(given, vs[k]) then None else Some(vs[k].Shows()))
  }

  /** Caller evidence is as the caller gave it: a body with its media type, or a mark where there is no body. */
  ghost predicate CallerKept(data: map<Text, seq<byte>>, mediaTypes: map<Text, Text>, unreachable: set<Text>, outcomes: map<Text, Outcome>) {
    && (forall u :: u in data ==>
          && u in outcomes && outcomes[u].Retrieved? && outcomes[u].bytes == data[u] && outcomes[u].byCaller
          && (u in mediaTypes ==> outcomes[u].mediaType == Some(mediaTypes[u]))
          && (u !in mediaTypes ==> outcomes[u].mediaType.None?))
    && (forall u :: u in unreachable && u !in data ==> u in outcomes && outcomes[u] == Unavailable(true))
    && (forall u :: u in outcomes && outcomes[u].byCaller ==> u in data || u in unreachable)
  }

  /** A response that settles something for its address: a body, or an error of the network or about a body that arrived. */
  predicate Final(r: Response) {
    r.Ok? || !r.error.blocked || r.error.received
  }

  /** What else is settled is what a call to its address settled, and such a call settles it. */
  ghost predicate OutcomesExact(given: set<Text>, s: State) {
    && (forall u :: u in s.outcomes && u !in given ==> exists i :: 0 <= i < |s.calls| && Settled(s.calls[i], u, s.outcomes[u]))
    && (forall i :: 0 <= i < |s.calls| && !s.calls[i].need.Ocsp? ==>
          && s.calls[i].need.Address() !in given
          && (Final(s.calls[i].response) <==> s.calls[i].need.Address() in s.outcomes))
  }

  predicate Settled(call: Call, u: Text, o: Outcome) {
    && !call.need.Ocsp? && call.need.Address() == u && Final(call.response) && !o.byCaller
    && (if call.response.Ok? then o.Retrieved? && o.bytes == call.response.value.bytes && o.mediaType == call.response.value.mediaType
        else o.Unavailable?)
  }

  // ---- One visit -------------------------------------------------------------------------------------------

  const NO_NEWS := OcspUpdate(map[], [])

  function VisitOne(x: Outside, s: State, v: Visit): State {
    match v
    case GraphVisit(g, terminalRoot) => Frontier(x, s, g, terminalRoot)
    case DidVisit(q) => ResolveDid(x, s, q).0
    case OcspVisit(need) => FetchOcspOne(x, s, NO_NEWS, need).0
  }

  function VisitAll(x: Outside, s: State, vs: seq<Visit>): State {
    if vs == [] then s else VisitOne(x, VisitAll(x, s, vs[..|vs| - 1]), vs[|vs| - 1])
  }

  /** The state, before a visit, still lacks what the visit wants. */
  predicate Lacks(s: State, need: Need) {
    if need.Ocsp? then (need.certificate, need.requestDer) !in s.ocsp else need.Address() !in s.outcomes && need.Address() !in s.gets
  }

  function Shown(s: State, v: Visit): seq<Needed> {
    if (!v.Wants().Ocsp? && IsCaller(s, v.Wants().Address())) || v.Shows() in s.needed then s.needed else s.needed + [v.Shows()]
  }

  /** The parts of a state that a visit without consent leaves alone. */
  predicate SameEvidence(s: State, t: State) {
    t.outcomes == s.outcomes && t.budget == s.budget && t.calls == s.calls && t.attempts == s.attempts
  }

  /** What a visit with consent fetched. */
  ghost predicate Fetches(x: Outside, s: State, t: State, need: Need) {
    if s.budget.Spent() then
      t.outcomes == s.outcomes && t.budget == s.budget && t.calls == s.calls && t.attempts == s.attempts + [Attempt(need, Skipped)]
    else
      var call := Call(need, RequestFor(need, s.budget), x.fetch(|s.calls|, RequestFor(need, s.budget)));
      && t.calls == s.calls + [call] && t.attempts == s.attempts + [Attempt(need, Judged(x, call))] && t.budget == s.budget.Less(call.response)
      && (if need.Ocsp? then t.outcomes == s.outcomes else ExtendsAt(s, t, need.Address()))
  }

  /** Outcomes are as they were, but for one address that had none. */
  predicate ExtendsAt(s: State, t: State, u: Text) {
    s.outcomes == t.outcomes - {u} && (u in t.outcomes ==> !t.outcomes[u].byCaller)
  }

  ghost predicate Visited(x: Outside, s: State, t: State, v: Visit) {
    var need := v.Wants();
    var yes := Lacks(s, need) && x.consent(s.asked, need);
    && t.needed == Shown(s, v)
    && t.asked == s.asked + (if Lacks(s, need) then 1 else 0)
    && t.enabled == (s.enabled || yes)
    && t.gets == (if Lacks(s, need) && !need.Ocsp? then s.gets + {need.Address()} else s.gets)
    && t.ocsp == (if Lacks(s, need) && need.Ocsp? then s.ocsp + {(need.certificate, need.requestDer)} else s.ocsp)
    && if yes then Fetches(x, s, t, need) else SameEvidence(s, t)
  }

  /** What a body that was asked for with consent fetched, before its use is judged. */
  ghost predicate Gets(x: Outside, s: State, t: State, need: Need) {
    if s.budget.Spent() then
      t.outcomes == s.outcomes && t.budget == s.budget && t.calls == s.calls && t.attempts == s.attempts + [Attempt(need, Skipped)]
    else
      var r := x.fetch(|s.calls|, RequestFor(need, s.budget));
      && t.calls == s.calls + [Call(need, RequestFor(need, s.budget), r)] && t.attempts == s.attempts + [Attempt(need, OutcomeOf(r))]
      && t.budget == s.budget.Less(r)
      && t.outcomes == (if Settles(r).Some? then s.outcomes[need.Address() := Settles(r).value] else s.outcomes)
  }

  lemma GetVisited(x: Outside, s: State, need: Need)
    requires !need.Ocsp?
    ensures var (t, attempt) := GetBody(x, s, need.Address(), need);
            var yes := Lacks(s, need) && x.consent(s.asked, need);
            && t.needed == s.needed && t.ocsp == s.ocsp
            && t.asked == s.asked + (if Lacks(s, need) then 1 else 0)
            && t.enabled == (s.enabled || yes)
            && t.gets == (if Lacks(s, need) then s.gets + {need.Address()} else s.gets)
            && attempt == (if yes then Some(|s.attempts|) else None)
            && if yes then Gets(x, s, t, need) else SameEvidence(s, t)
  {
    hide Budget.Less, RequestFor, OutcomeOf;
  }

  lemma SettledExtends(s: State, t: State, u: Text, r: Response)
    requires u !in s.outcomes && t.outcomes == (if Settles(r).Some? then s.outcomes[u := Settles(r).value] else s.outcomes)
    ensures ExtendsAt(s, t, u)
    ensures u in t.outcomes && t.outcomes[u].Retrieved? <==> r.Ok?
    ensures r.Ok? ==> t.outcomes[u].bytes == r.value.bytes
  {
  }

  lemma GraphVisited(x: Outside, s: State, g: GraphRequest, terminalRoot: bool)
    ensures Visited(x, s, Frontier(x, s, g, terminalRoot), GraphVisit(g, terminalRoot))
  {
    var v := GraphVisit(g, terminalRoot);
    var s1 := s.(needed := Shown(s, v));
    GetVisited(x, s1, v.Wants());
    hide Budget.Less, RequestFor, GetBody, Settles, ExtendsAt;
    var t := Frontier(x, s, g, terminalRoot);
    assert t == GetBody(x, s1, g.uri, v.Wants()).0;
    if Lacks(s, v.Wants()) && x.consent(s.asked, v.Wants()) && !s.budget.Spent() {
      SettledExtends(s, t, g.uri, x.fetch(|s.calls|, RequestFor(v.Wants(), s.budget)));
    }
  }

  lemma DidVisited(x: Outside, s: State, q: DidRequest)
    ensures Visited(x, s, ResolveDid(x, s, q).0, DidVisit(q))
  {
    var v := DidVisit(q);
    var s1 := s.(needed := Shown(s, v));
    GetVisited(x, s1, v.Wants());
    hide Budget.Less, RequestFor, GetBody, Settles, ExtendsAt;
    var (s2, attempt) := GetBody(x, s1, q.url, v.Wants());
    var t := ResolveDid(x, s, q).0;
    if Lacks(s, v.Wants()) && x.consent(s.asked, v.Wants()) && !s.budget.Spent() {
      SettledExtends(s, s2, q.url, x.fetch(|s.calls|, RequestFor(v.Wants(), s.budget)));
      SettledExtends(s, t, q.url, x.fetch(|s.calls|, RequestFor(v.Wants(), s.budget)));
    }
  }

  lemma OcspVisited(x: Outside, s: State, u: OcspUpdate, need: Need)
    requires need.Ocsp?
    ensures Visited(x, s, FetchOcspOne(x, s, u, need).0, OcspVisit(need))
  {
    hide Budget.Less, RequestFor, Tell;
  }

  // ---- What every visit keeps ---------------------------------------------------------------------------------

  predicate Named(vs: seq<Visit>, need: Need) {
    exists k :: 0 <= k < |vs| && Alike(vs[k].Wants(), need)
  }

  ghost predicate Remembered(given: set<Text>, vs: seq<Visit>, s: State) {
    && (forall need: Need :: !need.Ocsp? && need.Address() !in given ==> (need.Address() in s.gets <==> Named(vs, need)))
    && (forall need: Need :: need.Ocsp? ==> ((need.certificate, need.requestDer) in s.ocsp <==> Named(vs, need)))
    && (forall u :: u in s.outcomes ==> (s.outcomes[u].byCaller <==> u in given) && (u in given || u in s.gets))
    && (forall u :: u in given ==> u in s.outcomes)
  }

  ghost predicate Consented(x: Outside, given: set<Text>, enabled: bool, vs: seq<Visit>, s: State) {
    && s.asked == Questions(given, vs)
    && (s.enabled <==> enabled || AgreedVisits(x, given, vs) != {})
    && exists at: seq<nat> :: Lists(at, AgreedVisits(x, given, vs)) && Traced(x, vs, at, s)
  }

  predicate Charged(s: State) {
    s.budget == Budget(RequestsLeft(s.calls), BytesLeft(s.calls))
  }

  ghost predicate TraceInv(x: Outside, given: set<Text>, enabled: bool, vs: seq<Visit>, s: State) {
    Remembered(given, vs, s) && Charged(s) && Consented(x, given, enabled, vs, s) && OnceEach(s.needed, Raises(given, vs))
  }

  lemma LacksMeans(given: set<Text>, vs: seq<Visit>, s: State, v: Visit)
    requires Remembered(given, vs, s)
    ensures Lacks(s, v.Wants()) <==> Asks(given, vs + [v], |vs|)
  {
    var more, need := vs + [v], v.Wants();
    assert more[|vs|] == v && forall j :: 0 <= j < |vs| ==> more[j] == vs[j];
    assert Named(vs, need) <==> exists j :: 0 <= j < |vs| && Alike(more[j].Wants(), need);
  }

  lemma NamedMore(vs: seq<Visit>, v: Visit, need: Need)
    ensures Named(vs + [v], need) <==> Named(vs, need) || Alike(v.Wants(), need)
  {
    var more := vs + [v];
    if Named(vs, need) {
      var k :| 0 <= k < |vs| && Alike(vs[k].Wants(), need);
      assert more[k] == vs[k];
    }
    if Alike(v.Wants(), need) {
      assert more[|vs|] == v;
    }
  }

  lemma RememberedMore(x: Outside, given: set<Text>, vs: seq<Visit>, s: State, t: State, v: Visit)
    requires Remembered(given, vs, s) && Visited(x, s, t, v)
    ensures Remembered(given, vs + [v], t)
  {
    hide Named, Shown, Judged, RequestFor, Budget.Less;
    forall need: Need ensures Named(vs + [v], need) <==> Named(vs, need) || Alike(v.Wants(), need) {
      NamedMore(vs, v, need);
    }
  }

  /** Nothing about earlier visits depends on later ones. */
  lemma AgreedEarlier(x: Outside, given: set<Text>, vs: seq<Visit>, v: Visit, k: nat)
    requires k < |vs|
    ensures Asks(given, vs + [v], k) <==> Asks(given, vs, k)
    ensures Agreed(x, given, vs + [v], k) <==> Agreed(x, given, vs, k)
  {
    var more := vs + [v];
    assert more[..k] == vs[..k] && more[k] == vs[k];
    assert forall j :: 0 <= j < k ==> more[j] == vs[j];
  }

  lemma AgreedMore(x: Outside, given: set<Text>, vs: seq<Visit>, v: Visit)
    ensures Questions(given, vs + [v]) == Questions(given, vs) + if Asks(given, vs + [v], |vs|) then 1 else 0
    ensures AgreedVisits(x, given, vs + [v]) ==
            AgreedVisits(x, given, vs) + if Asks(given, vs + [v], |vs|) && x.consent(Questions(given, vs), v.Wants()) then {|vs|} else {}
  {
    var more := vs + [v];
    assert more[..|vs|] == vs && more[|vs|] == v;
    assert forall k :: 0 <= k < |vs| ==> (Agreed(x, given, more, k) <==> Agreed(x, given, vs, k)) by {
      forall k | 0 <= k < |vs| ensures Agreed(x, given, more, k) <==> Agreed(x, given, vs, k) {
        AgreedEarlier(x, given, vs, v, k);
      }
    }
    hide Asks;
    assert Agreed(x, given, more, |vs|) <==> Asks(given, more, |vs|) && x.consent(Questions(given, vs), v.Wants());
    hide Agreed;
  }

  /** A visit without consent. */
  lemma TracedSame(x: Outside, vs: seq<Visit>, at: seq<nat>, s: State, t: State, v: Visit)
    requires Traced(x, vs, at, s) && t.calls == s.calls && t.attempts == s.attempts
    ensures Traced(x, vs + [v], at, t)
  {
    hide CallFor, Judged;
  }

  /** A visit with consent, once the budget is spent. */
  lemma TracedSkipped(x: Outside, vs: seq<Visit>, at: seq<nat>, s: State, t: State, v: Visit)
    requires Traced(x, vs, at, s) && Charged(s) && s.budget.Spent()
    requires t.calls == s.calls && t.attempts == s.attempts + [Attempt(v.Wants(), Skipped)]
    ensures Traced(x, vs + [v], at + [|vs|], t)
  {
    hide CallFor, Judged, RequestsLeft, BytesLeft;
  }

  lemma CallForMore(x: Outside, calls: seq<Call>, call: Call, i: nat, need: Need)
    requires i < |calls| && CallFor(x, calls, i, need)
    ensures CallFor(x, calls + [call], i, need)
  {
    assert (calls + [call])[..i] == calls[..i];
  }

  lemma CallForNow(x: Outside, s: State, need: Need)
    requires Charged(s) && !s.budget.Spent()
    ensures var q := RequestFor(need, s.budget);
            CallFor(x, s.calls + [Call(need, q, x.fetch(|s.calls|, q))], |s.calls|, need)
  {
    var q := RequestFor(need, s.budget);
    assert (s.calls + [Call(need, q, x.fetch(|s.calls|, q))])[..|s.calls|] == s.calls;
    hide RequestsLeft, BytesLeft;
  }

  lemma TracedCalled(x: Outside, vs: seq<Visit>, at: seq<nat>, s: State, t: State, v: Visit, call: Call)
    requires Traced(x, vs, at, s) && Charged(s) && !s.budget.Spent()
    requires call == Call(v.Wants(), RequestFor(v.Wants(), s.budget), x.fetch(|s.calls|, RequestFor(v.Wants(), s.budget)))
    requires t.calls == s.calls + [call] && t.attempts == s.attempts + [Attempt(v.Wants(), Judged(x, call))]
    ensures Traced(x, vs + [v], at + [|vs|], t)
  {
    hide CallFor, Judged, RequestsLeft, BytesLeft, RequestFor;
    CallForNow(x, s, v.Wants());
    var more, now := vs + [v], at + [|vs|];
    forall i | 0 <= i < |t.calls|
      ensures CallFor(x, t.calls, i, more[now[i]].Wants()) && t.attempts[i] == Attempt(more[now[i]].Wants(), Judged(x, t.calls[i]))
    {
      if i < |s.calls| {
        CallForMore(x, s.calls, call, i, vs[at[i]].Wants());
      }
    }
  }

  lemma ListsMore(at: seq<nat>, chosen: set<nat>, k: nat)
    requires Lists(at, chosen) && forall j :: j in chosen ==> j < k
    ensures Lists(at + [k], chosen + {k})
  {
    assert forall i :: 0 <= i < |at| ==> at[i] in at;
  }

  lemma TracedMore(x: Outside, vs: seq<Visit>, at: seq<nat>, chosen: set<nat>, s: State, t: State, v: Visit)
    requires Lists(at, chosen) && Traced(x, vs, at, s) && Charged(s) && Visited(x, s, t, v) && forall k :: k in chosen ==> k < |vs|
    ensures var yes := Lacks(s, v.Wants()) && x.consent(s.asked, v.Wants());
            var longer := if yes then at + [|vs|] else at;
            Lists(longer, if yes then chosen + {|vs|} else chosen) && Traced(x, vs + [v], longer, t)
  {
    hide Lacks, Charged, Shown, RequestFor, Judged, ExtendsAt, Budget.Less, Lists, Traced;
    var need := v.Wants();
    if Lacks(s, need) && x.consent(s.asked, need) {
      ListsMore(at, chosen, |vs|);
      if s.budget.Spent() {
        TracedSkipped(x, vs, at, s, t, v);
      } else {
        TracedCalled(x, vs, at, s, t, v, Call(need, RequestFor(need, s.budget), x.fetch(|s.calls|, RequestFor(need, s.budget))));
      }
    } else {
      TracedSame(x, vs, at, s, t, v);
    }
  }

  lemma VisitAsks(x: Outside, s: State, t: State, v: Visit)
    requires Visited(x, s, t, v)
    ensures t.asked == s.asked + (if Lacks(s, v.Wants()) then 1 else 0)
    ensures t.enabled == (s.enabled || (Lacks(s, v.Wants()) && x.consent(s.asked, v.Wants())))
  {
  }

  lemma ConsentedMore(x: Outside, given: set<Text>, enabled: bool, vs: seq<Visit>, s: State, t: State, v: Visit)
    requires Remembered(given, vs, s) && Charged(s) && Consented(x, given, enabled, vs, s) && Visited(x, s, t, v)
    ensures Consented(x, given, enabled, vs + [v], t)
  {
    hide Remembered, Lacks, Asks, Questions, AgreedVisits, Charged, Lists, Traced, Visited;
    LacksMeans(given, vs, s, v);
    AgreedMore(x, given, vs, v);
    AgreedBelow(x, given, vs);
    VisitAsks(x, s, t, v);
    var at: seq<nat> :| Lists(at, AgreedVisits(x, given, vs)) && Traced(x, vs, at, s);
    TracedMore(x, vs, at, AgreedVisits(x, given, vs), s, t, v);
    if Lacks(s, v.Wants()) && x.consent(s.asked, v.Wants()) {
      assert |vs| in AgreedVisits(x, given, vs + [v]);
    } else {
      assert AgreedVisits(x, given, vs + [v]) == AgreedVisits(x, given, vs);
    }
  }

  lemma AgreedBelow(x: Outside, given: set<Text>, vs: seq<Visit>)
    ensures forall k :: k in AgreedVisits(x, given, vs) ==> k < |vs|
  {
  }

  lemma ChargedMore(x: Outside, s: State, t: State, v: Visit)
    requires Charged(s) && Visited(x, s, t, v)
    ensures Charged(t)
  {
    if t.calls != s.calls {
      assert t.calls[..|s.calls|] == s.calls;
    }
    hide Lacks, Shown, RequestFor, Judged, ExtendsAt;
  }

  lemma RaisesMore(given: set<Text>, vs: seq<Visit>, v: Visit)
    ensures Raises(given, vs + [v]) == Raises(given, vs) + [if Brought(given, v) then None else Some(v.Shows())]
  {
  }

  lemma ShownMeans(given: set<Text>, vs: seq<Visit>, s: State, v: Visit)
    requires Remembered(given, vs, s) && OnceEach(s.needed, Raises(given, vs))
    ensures OnceEach(Shown(s, v), Raises(given, vs + [v]))
  {
    hide OnceEach;
    RaisesMore(given, vs, v);
    hide Raises;
    OnceMore(s.needed, Raises(given, vs), if Brought(given, v) then None else Some(v.Shows()));
  }

  lemma VisitOneVisits(x: Outside, s: State, v: Visit)
    requires v.Proper()
    ensures Visited(x, s, VisitOne(x, s, v), v)
  {
    hide Visited, Frontier, ResolveDid, FetchOcspOne;
    match v
    case GraphVisit(g, terminalRoot) => GraphVisited(x, s, g, terminalRoot);
    case DidVisit(q) => DidVisited(x, s, q);
    case OcspVisit(need) => OcspVisited(x, s, NO_NEWS, need);
  }

  lemma {:induction false} TraceKept(x: Outside, given: set<Text>, enabled: bool, s: State, vs: seq<Visit>)
    requires TraceInv(x, given, enabled, [], s) && forall i :: 0 <= i < |vs| ==> vs[i].Proper()
    ensures TraceInv(x, given, enabled, vs, VisitAll(x, s, vs))
  {
    hide VisitOne, Remembered, Charged, Consented, OnceEach, Visited, Visit.Proper;
    if vs != [] {
      var front, v := vs[..|vs| - 1], vs[|vs| - 1];
      assert front + [v] == vs;
      TraceKept(x, given, enabled, s, front);
      var s1 := VisitAll(x, s, front);
      var t := VisitOne(x, s1, v);
      VisitOneVisits(x, s1, v);
      RememberedMore(x, given, front, s1, t, v);
      ConsentedMore(x, given, enabled, front, s1, t, v);
      ChargedMore(x, s1, t, v);
      ShownMeans(given, front, s1, v);
      NeededIs(x, s1, t, v);
    }
  }

  lemma NeededIs(x: Outside, s: State, t: State, v: Visit)
    requires Visited(x, s, t, v)
    ensures t.needed == Shown(s, v)
  {
  }

  // ---- Rounds are their visits ------------------------------------------------------------------------------------

  lemma {:induction false} VisitMore(x: Outside, s: State, vs: seq<Visit>, more: seq<Visit>)
    ensures VisitAll(x, s, vs + more) == VisitAll(x, VisitAll(x, s, vs), more)
  {
    hide VisitOne;
    if more == [] {
      assert vs + more == vs;
    } else {
      var front := more[..|more| - 1];
      assert (vs + more)[..|vs + more| - 1] == vs + front;
      VisitMore(x, s, vs, front);
    }
  }

  lemma {:induction false} DidsAreVisits(x: Outside, s: State, qs: seq<DidRequest>, pinned: set<Text>)
    ensures ResolveDids(x, s, qs, pinned).0 == VisitAll(x, s, Unpinned(qs, pinned))
    ensures forall i :: 0 <= i < |Unpinned(qs, pinned)| ==> Unpinned(qs, pinned)[i].Proper()
  {
    hide ResolveDid;
    if qs != [] {
      var front, q := qs[..|qs| - 1], qs[|qs| - 1];
      DidsAreVisits(x, s, front, pinned);
      if q.did !in pinned {
        assert (Unpinned(front, pinned) + [DidVisit(q)])[..|Unpinned(front, pinned)|] == Unpinned(front, pinned);
      } else {
        assert Unpinned(front, pinned) + [] == Unpinned(front, pinned);
      }
    }
  }

  lemma OcspSame(x: Outside, s: State, u: OcspUpdate, need: Need)
    ensures FetchOcspOne(x, s, u, need).0 == FetchOcspOne(x, s, NO_NEWS, need).0
    ensures !need.Ocsp? ==> FetchOcspOne(x, s, u, need) == (s, u)
  {
  }

  lemma {:induction false} OcspAreVisits(x: Outside, s: State, needs: seq<Need>)
    ensures FetchOcsp(x, s, needs).0 == VisitAll(x, s, OcspVisits(needs))
    ensures forall i :: 0 <= i < |OcspVisits(needs)| ==> OcspVisits(needs)[i].Proper()
  {
    hide FetchOcspOne;
    if needs != [] {
      var front, need := needs[..|needs| - 1], needs[|needs| - 1];
      OcspAreVisits(x, s, front);
      var (s1, u) := FetchOcsp(x, s, front);
      OcspSame(x, s1, u, need);
      if need.Ocsp? {
        assert (OcspVisits(front) + [OcspVisit(need)])[..|OcspVisits(front)|] == OcspVisits(front);
      } else {
        assert OcspVisits(front) + [] == OcspVisits(front);
      }
    }
  }

  lemma RoundIsVisits(x: Outside, s: State, r: Round)
    ensures Play(x, s, r) == VisitAll(x, s, VisitsOf(r)) && forall i :: 0 <= i < |VisitsOf(r)| ==> VisitsOf(r)[i].Proper()
  {
    hide Frontier, ResolveDid, ResolveDids, FetchOcsp, Unpinned, OcspVisits;
    match r
    case GraphRound(g, terminalRoot) =>
      var v := GraphVisit(g, terminalRoot);
      assert [v][..0] == [];
      assert VisitAll(x, s, [v][..0]) == s;
    case DidRound(qs, pinned) => DidsAreVisits(x, s, qs, pinned);
    case OcspRound(needs) => OcspAreVisits(x, s, needs);
  }

  lemma {:induction false} RoundsAreVisits(x: Outside, s: State, rs: seq<Round>)
    ensures PlayAll(x, s, rs) == VisitAll(x, s, AllVisits(rs)) && forall i :: 0 <= i < |AllVisits(rs)| ==> AllVisits(rs)[i].Proper()
  {
    hide Play, VisitsOf, Visit.Proper;
    if rs != [] {
      var front, r := rs[..|rs| - 1], rs[|rs| - 1];
      RoundsAreVisits(x, s, front);
      var s1 := PlayAll(x, s, front);
      RoundIsVisits(x, s1, r);
      VisitMore(x, s, AllVisits(front), VisitsOf(r));
    }
  }

  // ---- Outcomes ----------------------------------------------------------------------------------------------------------

  lemma GaveMeans(call: Call, u: Text, o: Outcome)
    ensures Gave(call, u, o) <==> Settled(call, u, o)
    ensures Settles(call.response).Some? <==> Final(call.response)
  {
  }

  lemma CallFinal(caller: map<Text, Outcome>, s: State, i: nat)
    requires Sourced(caller, s) && AtMostOnce(s) && i < |s.calls| && !s.calls[i].need.Ocsp?
    ensures s.calls[i].need.Address() !in caller.Keys
    ensures Final(s.calls[i].response) <==> s.calls[i].need.Address() in s.outcomes
  {
    hide Settles, Final;
    var u := s.calls[i].need.Address();
    GaveMeans(s.calls[i], u, Unavailable(false));
    if u in s.outcomes {
      var j :| 0 <= j < |s.calls| && Gave(s.calls[j], u, s.outcomes[u]);
      assert i < j ==> !Same(s.calls[i], s.calls[j]);
      assert j < i ==> !Same(s.calls[j], s.calls[i]);
    }
  }

  lemma SourcedExact(caller: map<Text, Outcome>, s: State)
    requires Sourced(caller, s) && AtMostOnce(s)
    ensures OutcomesExact(caller.Keys, s)
  {
    hide Settles, AtMostOnce, Final, Settled;
    forall u | u in s.outcomes && u !in caller.Keys ensures exists i :: 0 <= i < |s.calls| && Settled(s.calls[i], u, s.outcomes[u]) {
      var i :| 0 <= i < |s.calls| && Gave(s.calls[i], u, s.outcomes[u]);
      GaveMeans(s.calls[i], u, s.outcomes[u]);
    }
    hide Sourced;
    forall i | 0 <= i < |s.calls| && !s.calls[i].need.Ocsp?
      ensures s.calls[i].need.Address() !in caller.Keys
      ensures Final(s.calls[i].response) <==> s.calls[i].need.Address() in s.outcomes
    {
      CallFinal(caller, s, i);
    }
  }

  // ---- Documents ---------------------------------------------------------------------------------------------------------

  /** A body that parses is at hand for an unpinned request. */
  predicate Usable(x: Outside, s: State, q: DidRequest, pinned: set<Text>) {
    q.did !in pinned && q.url in s.outcomes && Parses(x, s.outcomes[q.url])
  }

  predicate Parses(x: Outside, o: Outcome) {
    o.Retrieved? && |o.bytes| <= MAX_DID_DOCUMENT_BYTES && x.parseDocument(o.bytes).Some?
  }

  /** What was handled for an address before stays as it is, with or without an outcome. */
  ghost predicate Steady(s: State, t: State) {
    forall u :: u in s.outcomes || u in s.gets ==>
      && (u in t.outcomes || u in t.gets)
      && (u in s.outcomes <==> u in t.outcomes)
      && (u in s.outcomes ==> t.outcomes[u] == s.outcomes[u])
  }

  lemma VisitedSteady(x: Outside, s: State, t: State, v: Visit)
    requires Visited(x, s, t, v)
    ensures Steady(s, t) && (!v.Wants().Ocsp? ==> v.Wants().Address() in t.outcomes || v.Wants().Address() in t.gets)
  {
    hide Shown, Judged, RequestFor, Budget.Less;
  }

  lemma DidDocumentIs(x: Outside, s: State, q: DidRequest, pinned: set<Text>)
    requires q.did !in pinned
    ensures var (t, document) := ResolveDid(x, s, q);
            && (document.Some? <==> Usable(x, t, q, pinned))
            && (document.Some? ==> document == x.parseDocument(t.outcomes[q.url].bytes))
  {
    hide GetBody;
  }

  /** The last usable request for a DID and its document. */
  ghost predicate FromLast(x: Outside, t: State, qs: seq<DidRequest>, pinned: set<Text>, did: Text, document: Document) {
    exists i :: 0 <= i < |qs| && qs[i].did == did && IsLast(x, t, qs, pinned, i) && x.parseDocument(t.outcomes[qs[i].url].bytes) == Some(document)
  }

  predicate IsLast(x: Outside, t: State, qs: seq<DidRequest>, pinned: set<Text>, i: nat)
    requires i < |qs|
  {
    Usable(x, t, qs[i], pinned) && forall j :: i < j < |qs| && qs[j].did == qs[i].did ==> !Usable(x, t, qs[j], pinned)
  }

  predicate AllHandled(t: State, qs: seq<DidRequest>, pinned: set<Text>) {
    forall i :: 0 <= i < |qs| && qs[i].did !in pinned ==> qs[i].url in t.outcomes || qs[i].url in t.gets
  }

  lemma LastStays(x: Outside, s: State, t: State, qs: seq<DidRequest>, q: DidRequest, pinned: set<Text>, did: Text, document: Document)
    requires FromLast(x, s, qs, pinned, did, document) && Steady(s, t) && AllHandled(s, qs, pinned)
    requires q.did == did ==> !Usable(x, t, q, pinned)
    ensures FromLast(x, t, qs + [q], pinned, did, document)
  {
    var i :| 0 <= i < |qs| && qs[i].did == did && IsLast(x, s, qs, pinned, i) && x.parseDocument(s.outcomes[qs[i].url].bytes) == Some(document);
    var more := qs + [q];
    assert forall j :: 0 <= j < |qs| ==> more[j] == qs[j] && (Usable(x, s, qs[j], pinned) <==> Usable(x, t, qs[j], pinned));
    assert IsLast(x, t, more, pinned, i);
  }

  lemma LastNow(x: Outside, t: State, qs: seq<DidRequest>, q: DidRequest, pinned: set<Text>, document: Document)
    requires Usable(x, t, q, pinned) && x.parseDocument(t.outcomes[q.url].bytes) == Some(document)
    ensures FromLast(x, t, qs + [q], pinned, q.did, document)
  {
    var more := qs + [q];
    assert more[|qs|] == q && IsLast(x, t, more, pinned, |qs|);
  }

  /** The documents handed on are exactly those of the last usable request of each unpinned DID, judged by what is at hand in the end. */
  lemma {:induction false} DocumentsExact(x: Outside, s: State, qs: seq<DidRequest>, pinned: set<Text>)
    ensures var (t, documents) := ResolveDids(x, s, qs, pinned);
            && Steady(s, t) && AllHandled(t, qs, pinned)
            && (forall did :: did in documents ==> FromLast(x, t, qs, pinned, did, documents[did]))
            && (forall i :: 0 <= i < |qs| && Usable(x, t, qs[i], pinned) ==> qs[i].did in documents)
  {
    hide ResolveDid, FromLast, Parses;
    if qs != [] {
      var front, q := qs[..|qs| - 1], qs[|qs| - 1];
      assert qs == front + [q];
      DocumentsExact(x, s, front, pinned);
      var (s1, before) := ResolveDids(x, s, front, pinned);
      var (t, documents) := ResolveDids(x, s, qs, pinned);
      if q.did in pinned {
        assert Steady(s1, s1);
      } else {
        DidVisited(x, s1, q);
        hide Visited;
        VisitedSteady(x, s1, t, DidVisit(q));
        DidDocumentIs(x, s1, q, pinned);
      }
      forall did | did in documents ensures FromLast(x, t, qs, pinned, did, documents[did]) {
        if did == q.did && Usable(x, t, q, pinned) {
          LastNow(x, t, front, q, pinned, documents[did]);
        } else {
          LastStays(x, s1, t, front, q, pinned, did, documents[did]);
        }
      }
    }
  }

  // ---- OCSP --------------------------------------------------------------------------------------------------------------

  /** A response arrived, be it one that had to be discarded. */
  predicate Answers(call: Call, certificate: Text) {
    call.need.Ocsp? && call.need.certificate == certificate && (call.response.Ok? || call.response.error.received)
  }

  /** `o` is what was first answered for the certificate: the octets, none for a discarded body. */
  ghost predicate FirstAnswer(calls: seq<Call>, certificate: Text, o: seq<byte>) {
    exists i :: 0 <= i < |calls| && AnswersFirst(calls, certificate, i) && o == match calls[i].response case Ok(f) => f.bytes case Err(_) => []
  }

  predicate AnswersFirst(calls: seq<Call>, certificate: Text, i: nat)
    requires i < |calls|
  {
    Answers(calls[i], certificate) && forall j :: 0 <= j < i ==> !Answers(calls[j], certificate)
  }

  function Unreached(calls: seq<Call>): seq<Option<Text>> {
    seq(|calls|, i requires 0 <= i < |calls| =>
      if calls[i].need.Ocsp? && calls[i].response.Err? && !calls[i].response.error.received && !calls[i].response.error.blocked
      then Some(calls[i].need.certificate) else None)
  }

  /** The update says what these calls brought: the first answer for each certificate, and each unreachable one once. */
  ghost predicate Tells(u: OcspUpdate, calls: seq<Call>) {
    && (forall c :: c in u.responses ==> FirstAnswer(calls, c, u.responses[c]))
    && (forall i, c :: 0 <= i < |calls| && Answers(calls[i], c) ==> c in u.responses)
    && OnceEach(u.unreachable, Unreached(calls))
  }

  lemma FirstStays(calls: seq<Call>, call: Call, c: Text, o: seq<byte>)
    requires FirstAnswer(calls, c, o)
    ensures FirstAnswer(calls + [call], c, o)
  {
    var i :| 0 <= i < |calls| && AnswersFirst(calls, c, i) && o == match calls[i].response case Ok(f) => f.bytes case Err(_) => [];
    assert (calls + [call])[i] == calls[i] && AnswersFirst(calls + [call], c, i);
  }

  lemma FirstNow(calls: seq<Call>, call: Call, c: Text)
    requires Answers(call, c) && forall i :: 0 <= i < |calls| ==> !Answers(calls[i], c)
    ensures FirstAnswer(calls + [call], c, match call.response case Ok(f) => f.bytes case Err(_) => [])
  {
    var more := calls + [call];
    assert more[|calls|] == call && AnswersFirst(more, c, |calls|);
  }

  lemma TellTells(u: OcspUpdate, calls: seq<Call>, call: Call)
    requires Tells(u, calls) && call.need.Ocsp?
    ensures Tells(Tell(u, call.need.certificate, call.response), calls + [call])
  {
    var c, u', more := call.need.certificate, Tell(u, call.need.certificate, call.response), calls + [call];
    var mark := if call.response.Err? && !call.response.error.received && !call.response.error.blocked then Some(c) else None;
    assert Unreached(more) == Unreached(calls) + [mark];
    OnceMore(u.unreachable, Unreached(calls), mark);
    hide OnceEach, Unreached, FirstAnswer;
    forall d | d in u'.responses ensures FirstAnswer(more, d, u'.responses[d]) {
      if d in u.responses {
        FirstStays(calls, call, d, u.responses[d]);
      } else {
        FirstNow(calls, call, d);
      }
    }
  }

  lemma OcspCallsOne(x: Outside, s: State, u: OcspUpdate, need: Need)
    ensures var (t, u') := FetchOcspOne(x, s, u, need);
            || (t.calls == s.calls && u' == u)
            || (need.Ocsp? && exists call: Call :: call.need == need && t.calls == s.calls + [call] && u' == Tell(u, need.certificate, call.response))
  {
    hide RequestFor, Budget.Less;
  }

  /** The update of a round tells exactly what the calls of that round brought. */
  lemma {:induction false} OcspUpdateExact(x: Outside, s: State, needs: seq<Need>)
    ensures var (t, u) := FetchOcsp(x, s, needs);
            s.calls <= t.calls && Tells(u, t.calls[|s.calls|..])
  {
    hide FetchOcspOne, Tells, Tell;
    if needs == [] {
      assert s.calls[|s.calls|..] == [];
      NothingTold();
    } else {
      var front, need := needs[..|needs| - 1], needs[|needs| - 1];
      OcspUpdateExact(x, s, front);
      var (s1, u1) := FetchOcsp(x, s, front);
      OcspCallsOne(x, s1, u1, need);
      var t := FetchOcsp(x, s, needs).0;
      if t.calls != s1.calls {
        var call: Call :| call.need == need && t.calls == s1.calls + [call] && FetchOcsp(x, s, needs).1 == Tell(u1, need.certificate, call.response);
        TellTells(u1, s1.calls[|s.calls|..], call);
        assert t.calls[|s.calls|..] == s1.calls[|s.calls|..] + [call];
      }
    }
  }

  lemma NothingTold()
    ensures Tells(OcspUpdate(map[], []), [])
  {
    assert Firsts([], Unreached([]), []);
  }

  // ---- Main results ---------------------------------------------------------------------------------------------------

  lemma StartTraced(x: Outside, data: map<Text, seq<byte>>, mediaTypes: map<Text, Text>, unreachable: set<Text>, enabled: bool)
    ensures var s := Start(FromCaller(data, mediaTypes, unreachable), enabled);
            TraceInv(x, data.Keys + unreachable, enabled, [], s) && CallerKept(data, mediaTypes, unreachable, s.outcomes)
  {
    var given := data.Keys + unreachable;
    var s := Start(FromCaller(data, mediaTypes, unreachable), enabled);
    assert AgreedVisits(x, given, []) == {};
    assert Lists([], {}) && Traced(x, [], [], s);
    assert Firsts([], Raises(given, []), []);
  }

  /** Over any rounds. Consent is asked exactly once for each thing the caller did not bring, in the order of first visit.
      Exactly the visits whose own question was answered yes are attempted, each once and in order: through the transport with
      exactly its need's request and the answer it gave, until the budget is spent. The report names exactly what was visited
      without caller evidence, once each, and says whether any consent was given. */
  lemma TraceExact(x: Outside, data: map<Text, seq<byte>>, mediaTypes: map<Text, Text>, unreachable: set<Text>, enabled: bool, rs: seq<Round>)
    ensures var s := PlayAll(x, Start(FromCaller(data, mediaTypes, unreachable), enabled), rs);
            var given, vs := data.Keys + unreachable, AllVisits(rs);
            && s.asked == Questions(given, vs)
            && (s.enabled <==> enabled || AgreedVisits(x, given, vs) != {})
            && (exists at: seq<nat> :: Lists(at, AgreedVisits(x, given, vs)) && Traced(x, vs, at, s))
            && s.budget == Budget(RequestsLeft(s.calls), BytesLeft(s.calls))
            && OnceEach(s.needed, Raises(given, vs))
            && CallerKept(data, mediaTypes, unreachable, s.outcomes) && OutcomesExact(given, s)
  {
    StartTraced(x, data, mediaTypes, unreachable, enabled);
    var s0 := Start(FromCaller(data, mediaTypes, unreachable), enabled);
    hide Remembered, Lists, Traced, OnceEach, VisitAll, AllVisits, PlayAll, Raises, Questions, AgreedVisits, Start, CallerKept, Visit.Proper;
    RoundsAreVisits(x, s0, rs);
    TraceKept(x, data.Keys + unreachable, enabled, s0, AllVisits(rs));
    RunOutcomes(x, data, mediaTypes, unreachable, enabled, rs);
  }

  lemma RunOutcomes(x: Outside, data: map<Text, seq<byte>>, mediaTypes: map<Text, Text>, unreachable: set<Text>, enabled: bool, rs: seq<Round>)
    ensures var s := PlayAll(x, Start(FromCaller(data, mediaTypes, unreachable), enabled), rs);
            CallerKept(data, mediaTypes, unreachable, s.outcomes) && OutcomesExact(data.Keys + unreachable, s)
  {
    hide PlayAll, Balanced, Shaped, AtMostOnce, Sourced, OutcomesExact, CallerKept, FromCaller;
    var caller := FromCaller(data, mediaTypes, unreachable);
    StartInv(false, caller, enabled);
    PlayKeeps(false, x, caller, Start(caller, enabled), rs);
    var s := PlayAll(x, Start(caller, enabled), rs);
    SourcedExact(caller, s);
    CallerStays(data, mediaTypes, unreachable, s);
  }

  lemma CallerStays(data: map<Text, seq<byte>>, mediaTypes: map<Text, Text>, unreachable: set<Text>, s: State)
    requires Sourced(FromCaller(data, mediaTypes, unreachable), s)
    ensures FromCaller(data, mediaTypes, unreachable).Keys == data.Keys + unreachable
    ensures CallerKept(data, mediaTypes, unreachable, s.outcomes)
  {
    hide Settles;
    forall u | u in s.outcomes && s.outcomes[u].byCaller ensures u in data || u in unreachable {
      if u !in data && u !in unreachable {
        var i :| 0 <= i < |s.calls| && Gave(s.calls[i], u, s.outcomes[u]);
        GaveMeans(s.calls[i], u, s.outcomes[u]);
      }
    }
  }
}
