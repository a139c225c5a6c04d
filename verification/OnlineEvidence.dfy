/** Evidence is stable, fetched at most once, and paid for from one budget. */
module OnlineEvidence {
  import opened Octets
  import opened Texts
  import opened Online

  // ---- What every step keeps ----------------------------------------------------------------------

  /** A fetcher that respects the request it was given: no more HTTP requests than remain, and no more octets than the
      limit and the one that shows the limit was passed. */
  ghost predicate Respectful(x: Outside) {
    forall k: nat, q: FetchRequest ::
      Used(x.fetch(k, q)) <= q.remaining && Received(x.fetch(k, q)) <= q.limit + 1
  }

  function TotalUsed(calls: seq<Call>): nat {
    if calls == [] then 0 else TotalUsed(calls[..|calls| - 1]) + Used(calls[|calls| - 1].response)
  }

  function TotalReceived(calls: seq<Call>): nat {
    if calls == [] then 0 else TotalReceived(calls[..|calls| - 1]) + Received(calls[|calls| - 1].response)
  }

  /** The budget is what the calls have left of it; only the call that spends the octets may go one over. */
  ghost predicate Balanced(s: State) {
    && s.budget.requests + TotalUsed(s.calls) == MAX_REQUESTS
    && (if s.budget.bytes > 0 then s.budget.bytes + TotalReceived(s.calls) == MAX_RECEIVED_BYTES
        else MAX_RECEIVED_BYTES <= TotalReceived(s.calls) <= MAX_RECEIVED_BYTES + 1)
  }

  /** Needs that one answer would meet. */
  predicate Alike(a: Need, b: Need) {
    if a.Ocsp? then b.Ocsp? && a.certificate == b.certificate && a.requestDer == b.requestDer
    else !b.Ocsp? && a.Address() == b.Address()
  }

  predicate Same(a: Call, b: Call) {
    Alike(a.need, b.need)
  }

  /** No address is fetched twice, no certificate asked about twice with one request, and each is remembered. */
  ghost predicate AtMostOnce(s: State) {
    && (forall i, j :: 0 <= i < j < |s.calls| ==> !Same(s.calls[i], s.calls[j]))
    && (forall i :: 0 <= i < |s.calls| && s.calls[i].need.Ocsp? ==> (s.calls[i].need.certificate, s.calls[i].need.requestDer) in s.ocsp)
    && (forall i :: 0 <= i < |s.calls| && !s.calls[i].need.Ocsp? ==> s.calls[i].need.Address() in s.gets)
  }

  /** The outcome at an address is the caller's, or what the one call to it settled. */
  ghost predicate Sourced(caller: map<Text, Outcome>, s: State) {
    && (forall u :: u in caller ==> u in s.outcomes && s.outcomes[u] == caller[u])
    && (forall u :: u in s.outcomes && u !in caller ==> exists i :: 0 <= i < |s.calls| && Gave(s.calls[i], u, s.outcomes[u]))
    && (forall i :: 0 <= i < |s.calls| && !s.calls[i].need.Ocsp? ==> s.calls[i].need.Address() !in caller)
    && (forall i :: 0 <= i < |s.calls| && !s.calls[i].need.Ocsp? && Settles(s.calls[i].response).Some? ==>
          s.calls[i].need.Address() in s.outcomes && s.outcomes[s.calls[i].need.Address()] == Settles(s.calls[i].response).value)
  }

  predicate Gave(c: Call, u: Text, o: Outcome) {
    !c.need.Ocsp? && c.need.Address() == u && Settles(c.response) == Some(o)
  }

  /** A call goes to its need's own address; only OCSP posts a body or may use plain HTTP; no response may exceed its kind's
      limit. */
  predicate WellShaped(call: Call) {
    var need, q := call.need, call.request;
    && q.url == need.Address()
    && q.allowHttp == need.Ocsp? && q.body == (if need.Ocsp? then Some(need.requestDer) else None)
    && q.limit <= MAX_RECEIVED_BYTES
    && (need.Ocsp? ==> q.limit <= MAX_OCSP_BYTES) && (need.DidDocument? ==> q.limit <= MAX_DID_DOCUMENT_BYTES)
  }

  ghost predicate Shaped(s: State) {
    forall i :: 0 <= i < |s.calls| ==> WellShaped(s.calls[i])
  }

  ghost predicate Inv(honest: bool, caller: map<Text, Outcome>, s: State) {
    (honest ==> Balanced(s)) && Shaped(s) && AtMostOnce(s) && Sourced(caller, s)
  }

  /** Nothing settled changes, nothing called is forgotten. */
  ghost predicate Extends(s: State, t: State) {
    && (forall u :: u in s.outcomes ==> u in t.outcomes && t.outcomes[u] == s.outcomes[u])
    && s.calls <= t.calls
  }

  ghost predicate Kept(honest: bool, caller: map<Text, Outcome>, s: State, t: State) {
    Inv(honest, caller, t) && Extends(s, t)
  }

  lemma ExtendsAgain(s: State, t: State, v: State)
    requires Extends(s, t) && Extends(t, v)
    ensures Extends(s, v)
  {
  }

  /** Bookkeeping that touches none of what the invariant is about. */
  lemma Bookkeeping(honest: bool, caller: map<Text, Outcome>, s: State, t: State)
    requires Inv(honest, caller, s) && t.outcomes == s.outcomes && t.budget == s.budget && t.calls == s.calls && s.gets <= t.gets && s.ocsp <= t.ocsp
    ensures Kept(honest, caller, s, t)
  {
    assert honest ==> Balanced(t);
    assert Shaped(t);
    assert AtMostOnce(t);
    assert Sourced(caller, t);
  }

  // ---- The transport --------------------------------------------------------------------------------

  /** A request keeps to what is left of the budget, and to its need. */
  lemma RequestShape(need: Need, b: Budget, r: Response)
    ensures RequestFor(need, b).remaining == b.requests && RequestFor(need, b).limit <= b.bytes
    ensures WellShaped(Call(need, RequestFor(need, b), r))
  {
  }

  lemma FetchBalanced(honest: bool, x: Outside, s: State, need: Need)
    requires (honest ==> Respectful(x) && Balanced(s)) && Shaped(s)
    ensures (honest ==> Balanced(Fetch(x, s, need).0)) && Shaped(Fetch(x, s, need).0)
    ensures var (t, r) := Fetch(x, s, need);
            if s.budget.Spent() then t.calls == s.calls && t.budget == s.budget && r == REFUSED
            else t.calls == s.calls + [Call(need, RequestFor(need, s.budget), r)]
    ensures Fetch(x, s, need).0.outcomes == s.outcomes && Fetch(x, s, need).0.gets == s.gets && Fetch(x, s, need).0.ocsp == s.ocsp
  {
    if !s.budget.Spent() {
      var q := RequestFor(need, s.budget);
      var r := x.fetch(|s.calls|, q);
      RequestShape(need, s.budget, r);
      var calls := s.calls + [Call(need, q, r)];
      assert calls[..|s.calls|] == s.calls;
      hide Respectful;
    }
  }

  /** A new GET call and what it settles. */
  lemma GetCalled(caller: map<Text, Outcome>, s: State, t: State, uri: Text, call: Call)
    requires AtMostOnce(s) && Sourced(caller, s) && uri !in s.outcomes && uri !in s.gets && !call.need.Ocsp? && call.need.Address() == uri
    requires t.calls == s.calls + [call] && t.gets == s.gets + {uri} && t.ocsp == s.ocsp
    requires t.outcomes == if Settles(call.response).Some? then s.outcomes[uri := Settles(call.response).value] else s.outcomes
    ensures AtMostOnce(t) && Sourced(caller, t)
  {
    hide Settles;
    forall u | u in t.outcomes && u !in caller ensures exists i :: 0 <= i < |t.calls| && Gave(t.calls[i], u, t.outcomes[u]) {
      if u == uri {
        assert Gave(t.calls[|s.calls|], u, t.outcomes[u]);
      } else {
        var i :| 0 <= i < |s.calls| && Gave(s.calls[i], u, s.outcomes[u]);
        assert Gave(t.calls[i], u, t.outcomes[u]);
      }
    }
  }

  /** Getting a body: at most one call, for an address without an outcome. */
  lemma GetKeeps(honest: bool, x: Outside, caller: map<Text, Outcome>, s: State, uri: Text, need: Need)
    requires (honest ==> Respectful(x)) && Inv(honest, caller, s) && !need.Ocsp? && need.Address() == uri
    ensures Kept(honest, caller, s, GetBody(x, s, uri, need).0)
  {
    hide Respectful, Fetch, Sourced, AtMostOnce, Balanced, Shaped, Settles;
    if uri in s.outcomes || uri in s.gets {
      Bookkeeping(honest, caller, s, s);
    } else {
      var (s1, yes) := Consent(x, s.(gets := s.gets + {uri}), need);
      Bookkeeping(honest, caller, s, s1);
      if yes {
        FetchBalanced(honest, x, s1, need);
        var (s2, r) := Fetch(x, s1, need);
        var t := GetBody(x, s, uri, need).0;
        SameBudget(s2, t);
        if s1.budget.Spent() {
          NothingSettled();
          Bookkeeping(honest, caller, s1, t);
        } else {
          GetCalled(caller, s, t, uri, Call(need, RequestFor(need, s1.budget), r));
        }
      }
    }
  }

  lemma NothingSettled()
    ensures Settles(REFUSED).None?
  {
  }

  lemma SameBudget(s: State, t: State)
    requires t.budget == s.budget && t.calls == s.calls
    ensures (Balanced(s) <==> Balanced(t)) && (Shaped(s) <==> Shaped(t))
  {
  }

  lemma OcspCalled(caller: map<Text, Outcome>, s: State, t: State, call: Call)
    requires AtMostOnce(s) && Sourced(caller, s) && call.need.Ocsp? && (call.need.certificate, call.need.requestDer) !in s.ocsp
    requires t.calls == s.calls + [call] && t.gets == s.gets && t.ocsp == s.ocsp + {(call.need.certificate, call.need.requestDer)}
    requires t.outcomes == s.outcomes
    ensures AtMostOnce(t) && Sourced(caller, t)
  {
    hide Settles;
    forall u | u in t.outcomes && u !in caller ensures exists i :: 0 <= i < |t.calls| && Gave(t.calls[i], u, t.outcomes[u]) {
      var i :| 0 <= i < |s.calls| && Gave(s.calls[i], u, s.outcomes[u]);
      assert Gave(t.calls[i], u, t.outcomes[u]);
    }
  }

  lemma OcspKeeps(honest: bool, x: Outside, caller: map<Text, Outcome>, s: State, u: OcspUpdate, need: Need)
    requires (honest ==> Respectful(x)) && Inv(honest, caller, s)
    ensures Kept(honest, caller, s, FetchOcspOne(x, s, u, need).0)
  {
    hide Respectful, Fetch, Sourced, AtMostOnce, Balanced, Shaped, Tell;
    Bookkeeping(honest, caller, s, s);
    if need.Ocsp? {
      var key, s1 := (need.certificate, need.requestDer), AddNeeded(s, NeedsOcsp(need));
      Bookkeeping(honest, caller, s, s1);
      if key !in s1.ocsp {
        var (s2, yes) := Consent(x, s1.(ocsp := s1.ocsp + {key}), need);
        Bookkeeping(honest, caller, s, s2);
        if yes {
          FetchBalanced(honest, x, s2, need);
          var (s3, r) := Fetch(x, s2, need);
          if s2.budget.Spent() {
            Bookkeeping(honest, caller, s2, s3);
          } else {
            OcspCalled(caller, s, s3, Call(need, RequestFor(need, s2.budget), r));
          }
        }
      }
    }
  }

  // ---- Rounds ----------------------------------------------------------------------------------------

  lemma KeptAgain(honest: bool, caller: map<Text, Outcome>, s: State, t: State, v: State)
    requires Kept(honest, caller, s, t) && Kept(honest, caller, t, v)
    ensures Kept(honest, caller, s, v)
  {
    hide Inv;
    ExtendsAgain(s, t, v);
  }

  lemma FrontierKeeps(honest: bool, x: Outside, caller: map<Text, Outcome>, s: State, g: GraphRequest, terminalRoot: bool)
    requires (honest ==> Respectful(x)) && Inv(honest, caller, s)
    ensures Kept(honest, caller, s, Frontier(x, s, g, terminalRoot))
  {
    hide Inv, Extends, GetBody, Respectful;
    var needed := if terminalRoot then NeedsManifest(g.uri) else if g.segment then NeedsSegment(g.uri) else NeedsData(g.uri);
    var s1 := if IsCaller(s, g.uri) then s else AddNeeded(s, needed);
    Bookkeeping(honest, caller, s, s1);
    var need := if terminalRoot then RemoteManifest(g.uri)
                else ExternalData(g.uri, if g.segment then "c2pa.hash.segment" else "c2pa.external-resource");
    GetKeeps(honest, x, caller, s1, g.uri, need);
    KeptAgain(honest, caller, s, s1, Frontier(x, s, g, terminalRoot));
  }

  lemma DidKeeps(honest: bool, x: Outside, caller: map<Text, Outcome>, s: State, q: DidRequest)
    requires (honest ==> Respectful(x)) && Inv(honest, caller, s)
    ensures Kept(honest, caller, s, ResolveDid(x, s, q).0)
  {
    hide Inv, Extends, GetBody, Respectful;
    var s1 := if IsCaller(s, q.url) then s else AddNeeded(s, NeedsDocument(q.did, q.url));
    Bookkeeping(honest, caller, s, s1);
    GetKeeps(honest, x, caller, s1, q.url, DidDocument(q.did, q.url));
    var (s2, attempt) := GetBody(x, s1, q.url, DidDocument(q.did, q.url));
    KeptAgain(honest, caller, s, s1, s2);
    var t := ResolveDid(x, s, q).0;
    Bookkeeping(honest, caller, s2, t);
    KeptAgain(honest, caller, s, s2, t);
  }

  lemma {:induction false} DidsKeep(honest: bool, x: Outside, caller: map<Text, Outcome>, s: State, qs: seq<DidRequest>, pinned: set<Text>)
    requires (honest ==> Respectful(x)) && Inv(honest, caller, s)
    ensures Kept(honest, caller, s, ResolveDids(x, s, qs, pinned).0)
  {
    hide Inv, Extends, ResolveDid, Respectful;
    if qs == [] {
      Bookkeeping(honest, caller, s, s);
    } else {
      DidsKeep(honest, x, caller, s, qs[..|qs| - 1], pinned);
      var s1 := ResolveDids(x, s, qs[..|qs| - 1], pinned).0;
      DidKeeps(honest, x, caller, s1, qs[|qs| - 1]);
      KeptAgain(honest, caller, s, s1, ResolveDid(x, s1, qs[|qs| - 1]).0);
    }
  }

  lemma {:induction false} OcspRoundKeeps(honest: bool, x: Outside, caller: map<Text, Outcome>, s: State, needs: seq<Need>)
    requires (honest ==> Respectful(x)) && Inv(honest, caller, s)
    ensures Kept(honest, caller, s, FetchOcsp(x, s, needs).0)
  {
    hide Inv, Extends, FetchOcspOne, Respectful;
    if needs == [] {
      Bookkeeping(honest, caller, s, s);
    } else {
      OcspRoundKeeps(honest, x, caller, s, needs[..|needs| - 1]);
      var (s1, u) := FetchOcsp(x, s, needs[..|needs| - 1]);
      OcspKeeps(honest, x, caller, s1, u, needs[|needs| - 1]);
      KeptAgain(honest, caller, s, s1, FetchOcspOne(x, s1, u, needs[|needs| - 1]).0);
    }
  }

  lemma {:induction false} PlayKeeps(honest: bool, x: Outside, caller: map<Text, Outcome>, s: State, rs: seq<Round>)
    requires (honest ==> Respectful(x)) && Inv(honest, caller, s)
    ensures Kept(honest, caller, s, PlayAll(x, s, rs))
  {
    hide Inv, Extends, Frontier, ResolveDids, FetchOcsp, Respectful;
    if rs == [] {
      Bookkeeping(honest, caller, s, s);
    } else {
      var before := PlayAll(x, s, rs[..|rs| - 1]);
      PlayKeeps(honest, x, caller, s, rs[..|rs| - 1]);
      match rs[|rs| - 1] {
        case GraphRound(g, terminalRoot) => FrontierKeeps(honest, x, caller, before, g, terminalRoot);
        case DidRound(qs, pinned) => DidsKeep(honest, x, caller, before, qs, pinned);
        case OcspRound(needs) => OcspRoundKeeps(honest, x, caller, before, needs);
      }
      KeptAgain(honest, caller, s, before, PlayAll(x, s, rs));
    }
  }

  lemma StartInv(honest: bool, caller: map<Text, Outcome>, enabled: bool)
    ensures Inv(honest, caller, Start(caller, enabled))
  {
  }

  // ---- A spent budget ------------------------------------------------------------------------------------

  /** Nothing was called or settled, and whatever was attempted was skipped. */
  ghost predicate Idle(s: State, t: State) {
    && t.calls == s.calls && t.outcomes == s.outcomes && t.budget == s.budget
    && s.attempts <= t.attempts
    && forall i :: |s.attempts| <= i < |t.attempts| ==> t.attempts[i].outcome.Skipped?
  }

  lemma IdleAgain(s: State, t: State, v: State)
    requires Idle(s, t) && Idle(t, v)
    ensures Idle(s, v)
  {
  }

  lemma IdleGet(x: Outside, s: State, uri: Text, need: Need)
    requires s.budget.Spent()
    ensures Idle(s, GetBody(x, s, uri, need).0) && (GetBody(x, s, uri, need).1.Some? ==> uri !in GetBody(x, s, uri, need).0.outcomes)
  {
  }

  lemma IdleDid(x: Outside, s: State, q: DidRequest)
    requires s.budget.Spent()
    ensures Idle(s, ResolveDid(x, s, q).0)
  {
    hide GetBody;
    var s1 := if IsCaller(s, q.url) then s else AddNeeded(s, NeedsDocument(q.did, q.url));
    IdleGet(x, s1, q.url, DidDocument(q.did, q.url));
  }

  lemma {:induction false} IdleDids(x: Outside, s: State, qs: seq<DidRequest>, pinned: set<Text>)
    requires s.budget.Spent()
    ensures Idle(s, ResolveDids(x, s, qs, pinned).0)
  {
    hide ResolveDid;
    if qs != [] {
      IdleDids(x, s, qs[..|qs| - 1], pinned);
      var s1 := ResolveDids(x, s, qs[..|qs| - 1], pinned).0;
      IdleDid(x, s1, qs[|qs| - 1]);
      IdleAgain(s, s1, ResolveDid(x, s1, qs[|qs| - 1]).0);
    }
  }

  lemma IdleOcsp(x: Outside, s: State, u: OcspUpdate, need: Need)
    requires s.budget.Spent()
    ensures Idle(s, FetchOcspOne(x, s, u, need).0)
  {
  }

  lemma {:induction false} IdleOcspRound(x: Outside, s: State, needs: seq<Need>)
    requires s.budget.Spent()
    ensures Idle(s, FetchOcsp(x, s, needs).0)
  {
    hide FetchOcspOne;
    if needs != [] {
      IdleOcspRound(x, s, needs[..|needs| - 1]);
      var (s1, u) := FetchOcsp(x, s, needs[..|needs| - 1]);
      IdleOcsp(x, s1, u, needs[|needs| - 1]);
      IdleAgain(s, s1, FetchOcspOne(x, s1, u, needs[|needs| - 1]).0);
    }
  }

  lemma IdleRound(x: Outside, s: State, r: Round)
    requires s.budget.Spent()
    ensures Idle(s, Play(x, s, r))
  {
    hide GetBody, ResolveDids, FetchOcsp;
    match r
    case GraphRound(g, terminalRoot) =>
      var needed := if terminalRoot then NeedsManifest(g.uri) else if g.segment then NeedsSegment(g.uri) else NeedsData(g.uri);
      var s1 := if IsCaller(s, g.uri) then s else AddNeeded(s, needed);
      var need := if terminalRoot then RemoteManifest(g.uri)
                  else ExternalData(g.uri, if g.segment then "c2pa.hash.segment" else "c2pa.external-resource");
      IdleGet(x, s1, g.uri, need);
    case DidRound(qs, pinned) => IdleDids(x, s, qs, pinned);
    case OcspRound(needs) => IdleOcspRound(x, s, needs);
  }

  /** Once the budget is spent nothing reaches the transport any more, whatever is needed: every later attempt is skipped. */
  lemma {:induction false} SpentForGood(x: Outside, s: State, rs: seq<Round>)
    requires s.budget.Spent()
    ensures Idle(s, PlayAll(x, s, rs))
  {
    hide Play;
    if rs != [] {
      var s1 := PlayAll(x, s, rs[..|rs| - 1]);
      SpentForGood(x, s, rs[..|rs| - 1]);
      IdleRound(x, s1, rs[|rs| - 1]);
      IdleAgain(s, s1, Play(x, s1, rs[|rs| - 1]));
    }
  }

  // ---- Main results -------------------------------------------------------------------------------------

  /** Over any rounds, split anywhere: an outcome once settled never changes, and caller evidence is never replaced nor
      fetched; every other outcome is what the one call to its address settled. */
  lemma EvidenceStable(x: Outside, caller: map<Text, Outcome>, enabled: bool, first: seq<Round>, second: seq<Round>)
    ensures var s := PlayAll(x, Start(caller, enabled), first);
            var t := PlayAll(x, s, second);
            && (forall u :: u in s.outcomes ==> u in t.outcomes && t.outcomes[u] == s.outcomes[u])
            && Sourced(caller, t)
  {
    hide PlayAll, Balanced, Sourced, AtMostOnce;
    StartInv(false, caller, enabled);
    PlayKeeps(false, x, caller, Start(caller, enabled), first);
    PlayKeeps(false, x, caller, PlayAll(x, Start(caller, enabled), first), second);
  }

  /** Each address reaches the transport at most once for a body, each certificate and request at most once for OCSP, and
      every call is shaped by its need. */
  lemma TransportAtMostOnce(x: Outside, caller: map<Text, Outcome>, enabled: bool, rs: seq<Round>)
    ensures var calls := PlayAll(x, Start(caller, enabled), rs).calls;
            && (forall i, j :: 0 <= i < j < |calls| ==> !Same(calls[i], calls[j]))
            && forall i :: 0 <= i < |calls| ==> WellShaped(calls[i])
  {
    hide PlayAll, Same, WellShaped;
    StartInv(false, caller, enabled);
    PlayKeeps(false, x, caller, Start(caller, enabled), rs);
  }

  /** One verification sends at most 16 requests and receives at most 64 MiB and one octet, failed reads included. */
  lemma BudgetBound(x: Outside, caller: map<Text, Outcome>, enabled: bool, rs: seq<Round>)
    requires Respectful(x)
    ensures var calls := PlayAll(x, Start(caller, enabled), rs).calls;
            TotalUsed(calls) <= MAX_REQUESTS && TotalReceived(calls) <= MAX_RECEIVED_BYTES + 1
  {
    hide PlayAll, TotalUsed, TotalReceived;
    StartInv(true, caller, enabled);
    PlayKeeps(true, x, caller, Start(caller, enabled), rs);
  }
}
