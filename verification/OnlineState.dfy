/** The online state of one verification, updating in place. */
module OnlineState {
  import opened Octets
  import opened Texts
  import opened Online

  class NativeOnline {
    const outside: Outside
    var outcomes: map<Text, Outcome>
    var budget: Budget
    var enabled: bool
    var needed: seq<Needed>
    var attempts: seq<Attempt>
    var gets: set<Text>
    var ocsp: set<(Text, seq<byte>)>
    /** What reached the transport, and how often consent was asked. */
    var calls: seq<Call>
    var asked: nat

    ghost function View(): State
      reads this
    {
      State(outcomes, budget, enabled, needed, attempts, gets, ocsp, calls, asked)
    }

    constructor (x: Outside, data: map<Text, seq<byte>>, mediaTypes: map<Text, Text>, unreachable: set<Text>, enabled: bool)
      ensures outside == x && View() == Start(FromCaller(data, mediaTypes, unreachable), enabled)
    {
      outside := x;
      outcomes := map uri | uri in data.Keys + unreachable ::
        if uri in data then Retrieved(data[uri], if uri in mediaTypes then Some(mediaTypes[uri]) else None, true) else Unavailable(true);
      budget := Budget(MAX_REQUESTS, MAX_RECEIVED_BYTES);
      this.enabled := enabled;
      needed, attempts, gets, ocsp, calls, asked := [], [], {}, {}, [], 0;
    }

    method PushNeeded(n: Needed)
      modifies this`needed
      ensures View() == AddNeeded(old(View()), n)
    {
      if n !in needed {
        needed := needed + [n];
      }
    }

    method AskConsent(need: Need) returns (yes: bool)
      modifies this`asked, this`enabled
      ensures (View(), yes) == Consent(outside, old(View()), need)
    {
      yes := outside.consent(asked, need);
      asked := asked + 1;
      if yes {
        enabled := true;
      }
    }

    method FetchOne(need: Need) returns (r: Response)
      modifies this`budget, this`calls, this`attempts
      ensures (View(), r) == Fetch(outside, old(View()), need)
    {
      if budget.requests == 0 || budget.bytes == 0 {
        attempts := attempts + [Attempt(need, Skipped)];
        return REFUSED;
      }
      var q := RequestFor(need, budget);
      r := outside.fetch(|calls|, q);
      calls := calls + [Call(need, q, r)];
      var requests := if Used(r) <= budget.requests then budget.requests - Used(r) else 0;
      var bytes := if Received(r) <= budget.bytes then budget.bytes - Received(r) else 0;
      budget := Budget(requests, bytes);
      attempts := attempts + [Attempt(need, OutcomeOf(r))];
    }

    method Get(uri: Text, need: Need) returns (attempt: Option<nat>)
      modifies this
      ensures (View(), attempt) == GetBody(outside, old(View()), uri, need)
    {
      hide Fetch;
      if uri in outcomes || uri in gets {
        return None;
      }
      gets := gets + {uri};
      var yes := AskConsent(need);
      if !yes {
        return None;
      }
      attempt := Some(|attempts|);
      var r := FetchOne(need);
      match r {
        case Ok(f) => outcomes := outcomes[uri := Retrieved(f.bytes, f.mediaType, false)];
        case Err(e) =>
          if !e.blocked || e.received {
            outcomes := outcomes[uri := Unavailable(false)];
          }
      }
      FetchKeepsOutcomes(outside, old(View()).(gets := gets, asked := asked, enabled := enabled), need);
    }

    method EnsureGraphResource(g: GraphRequest, terminalRoot: bool)
      modifies this
      ensures View() == Frontier(outside, old(View()), g, terminalRoot)
    {
      hide GetBody;
      if !(g.uri in outcomes && outcomes[g.uri].byCaller) {
        PushNeeded(if terminalRoot then NeedsManifest(g.uri) else if g.segment then NeedsSegment(g.uri) else NeedsData(g.uri));
      }
      var need := if terminalRoot then RemoteManifest(g.uri)
                  else ExternalData(g.uri, if g.segment then "c2pa.hash.segment" else "c2pa.external-resource");
      var _ := Get(g.uri, need);
    }

    method ResolveOneDid(q: DidRequest) returns (document: Option<Document>)
      modifies this
      ensures (View(), document) == ResolveDid(outside, old(View()), q)
    {
      hide GetBody;
      if !(q.url in outcomes && outcomes[q.url].byCaller) {
        PushNeeded(NeedsDocument(q.did, q.url));
      }
      var attempt := Get(q.url, DidDocument(q.did, q.url));
      if q.url !in outcomes || outcomes[q.url].Unavailable? {
        return None;
      }
      var bytes := outcomes[q.url].bytes;
      document := if |bytes| > MAX_DID_DOCUMENT_BYTES then None else outside.parseDocument(bytes);
      if document.None? && attempt.Some? && attempt.value < |attempts| {
        attempts := attempts[attempt.value := attempts[attempt.value].(outcome := Failed)];
      }
    }

    method ResolveDidDocuments(qs: seq<DidRequest>, pinned: set<Text>) returns (documents: map<Text, Document>)
      modifies this
      ensures (View(), documents) == ResolveDids(outside, old(View()), qs, pinned)
    {
      hide ResolveDid;
      documents := map[];
      for i := 0 to |qs|
        invariant (View(), documents) == ResolveDids(outside, old(View()), qs[..i], pinned)
      {
        assert qs[..i + 1][..i] == qs[..i];
        if qs[i].did !in pinned {
          var document := ResolveOneDid(qs[i]);
          if document.Some? {
            documents := documents[qs[i].did := document.value];
          }
        }
      }
      assert qs[..|qs|] == qs;
    }

    method FetchOcspNeeds(needs: seq<Need>) returns (update: OcspUpdate)
      modifies this
      ensures (View(), update) == FetchOcsp(outside, old(View()), needs)
    {
      hide Fetch, Tell, AddNeeded;
      update := OcspUpdate(map[], []);
      for i := 0 to |needs|
        invariant (View(), update) == FetchOcsp(outside, old(View()), needs[..i])
      {
        assert needs[..i + 1][..i] == needs[..i];
        var need := needs[i];
        if need.Ocsp? {
          PushNeeded(NeedsOcsp(need));
          var key := (need.certificate, need.requestDer);
          if key !in ocsp {
            ocsp := ocsp + {key};
            var yes := AskConsent(need);
            if yes {
              var r := FetchOne(need);
              update := Tell(update, need.certificate, r);
            }
          }
        }
      }
      assert needs[..|needs|] == needs;
    }
  }

  lemma FetchKeepsOutcomes(x: Outside, s: State, need: Need)
    ensures Fetch(x, s, need).0.outcomes == s.outcomes
  {
  }
}
