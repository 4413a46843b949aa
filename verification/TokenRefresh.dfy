/** Two stories about the shared token refresh, over any interleaving: a request that meets a 401, and signing out. */
module TokenRefresh {
  import opened Wrappers
  import opened ApiClient

  // ----- one request through a refresh

  predicate Finishes(e: Event, p: RefreshId) { e.FinishRefresh? && e.refresh == p }

  /** The refresh a request would join now: the one in flight, or the next one. */
  function SharedRefresh(c: Client): RefreshId {
    if c.refreshPromise.Some? then c.refreshPromise.value else c.nextRefresh
  }

  predicate WaitsOn(c: Client, id: nat, p: RefreshId) {
    id < |c.requests| && c.requests[id].phase == AwaitingRefresh(p)
  }

  lemma {:induction false} StepWaits(c: Client, id: nat, p: RefreshId, e: Event)
    requires SingleFlight(c) && WaitsOn(c, id, p) && p in c.inFlight && !Finishes(e, p)
    ensures WaitsOn(Step(c, e), id, p) && p in Step(c, e).inFlight
  {
  }

  lemma {:induction false} StepLeavesVerdict(c: Client, id: nat, p: RefreshId, e: Event)
    requires SingleFlight(c) && WaitsOn(c, id, p) && p in c.verdicts && e != Resume(id)
    ensures WaitsOn(Step(c, e), id, p) && p in Step(c, e).verdicts && Step(c, e).verdicts[p] == c.verdicts[p]
  {
    StepAdvances(c, e);
  }

  /** Until its refresh ends nothing moves a waiting request. */
  lemma {:induction false} WaitsThrough(c: Client, id: nat, p: RefreshId, events: seq<Event>)
    requires Inv(c) && WaitsOn(c, id, p) && p in c.inFlight && forall e :: e in events ==> !Finishes(e, p)
    ensures Inv(Run(c, events)) && WaitsOn(Run(c, events), id, p) && p in Run(c, events).inFlight
  {
    if events != [] {
      var front, last := events[..|events| - 1], events[|events| - 1];
      WaitsThrough(c, id, p, front);
      StepKeepsInv(Run(c, front), last);
      StepWaits(Run(c, front), id, p, last);
    }
  }

  /** Once it has ended, its verdict stands and waits for the request to be resumed. */
  lemma {:induction false} VerdictStands(c: Client, id: nat, p: RefreshId, events: seq<Event>)
    requires Inv(c) && WaitsOn(c, id, p) && p in c.verdicts && Resume(id) !in events
    ensures var later := Run(c, events);
      Inv(later) && WaitsOn(later, id, p) && p in later.verdicts && later.verdicts[p] == c.verdicts[p]
  {
    if events != [] {
      var front, last := events[..|events| - 1], events[|events| - 1];
      VerdictStands(c, id, p, front);
      StepKeepsInv(Run(c, front), last);
      StepLeavesVerdict(Run(c, front), id, p, last);
    }
  }

  /** What a refresh is for, whatever else happens meanwhile: a first 401 waits for the one refresh in flight; its end
      installs its pair, or drops the tokens, and clears the way for the next; the request is then sent again after a
      success and ends with its 401 after a failure. */
  lemma {:induction false} UnauthorizedIsRetried(c: Client, id: nat, between: seq<Event>, tokens: Option<TokenPair>, later: seq<Event>)
    requires Inv(c) && IsSending(c, id) && c.requests[id].auth && !c.requests[id].phase.retry && c.refreshToken.Some?
    requires forall e :: e in between ==> !Finishes(e, SharedRefresh(c))
    requires Resume(id) !in later
    ensures var waiting := Step(c, Respond(id, 401));
      && waiting.refreshPromise == Some(SharedRefresh(c))
      && var p := SharedRefresh(c);
         var ready := Run(waiting, between);
         && WaitsOn(ready, id, p) && Enabled(ready, FinishRefresh(p, tokens)) && !Enabled(ready, Resume(id))
         && var done := Step(ready, FinishRefresh(p, tokens));
            && Held(done) == tokens && done.refreshPromise.None?
            && var now := Run(done, later);
               && Enabled(now, Resume(id))
               && Step(now, Resume(id)).requests[id].phase == (if tokens.Some? then Sending(true) else Settled(ApiError(401)))
  {
    var waiting := Step(c, Respond(id, 401));
    StepKeepsInv(c, Respond(id, 401));
    var p := SharedRefresh(c);
    assert WaitsOn(waiting, id, p);
    WaitsThrough(waiting, id, p, between);
    var ready := Run(waiting, between);
    StepKeepsInv(ready, FinishRefresh(p, tokens));
    VerdictStands(Step(ready, FinishRefresh(p, tokens)), id, p, later);
  }

  // ----- signing out

  predicate SignsIn(e: Event) { e.ReplaceTokens? && e.tokens.Some? }

  predicate BringsPair(e: Event, pending: Option<RefreshId>) {
    e.FinishRefresh? && e.tokens.Some? && pending == Some(e.refresh)
  }

  lemma {:induction false} StepSignedOut(c: Client, e: Event, pending: Option<RefreshId>)
    requires Inv(c) && Held(c).None? && (c.refreshPromise.None? || c.refreshPromise == pending)
    requires !SignsIn(e) && !BringsPair(e, pending)
    ensures var later := Step(c, e); Held(later).None? && (later.refreshPromise.None? || later.refreshPromise == pending)
  {
  }

  /** Without tokens no refresh starts; only one already in flight can bring a pair. */
  lemma {:induction false} StaysSignedOut(c: Client, events: seq<Event>)
    requires Inv(c) && Held(c).None?
    requires forall e :: e in events ==> !SignsIn(e) && !BringsPair(e, c.refreshPromise)
    ensures var later := Run(c, events);
      Inv(later) && Held(later).None? && (later.refreshPromise.None? || later.refreshPromise == c.refreshPromise)
  {
    if events != [] {
      var front, last := events[..|events| - 1], events[|events| - 1];
      StaysSignedOut(c, front);
      StepKeepsInv(Run(c, front), last);
      StepSignedOut(Run(c, front), last, c.refreshPromise);
    }
  }

  /** After signing out the tokens stay away over every run without a new sign-in. */
  ghost predicate SignOutSticks(c: Client) {
    forall events: seq<Event> :: (forall e :: e in events ==> !SignsIn(e)) ==>
      Held(Run(Step(c, ReplaceTokens(None)), events)).None?
  }

  /** Signing out sticks exactly when no refresh is in flight: one that is installs its pair when it ends. */
  lemma {:induction false} SignOutSticksIff(c: Client)
    requires Inv(c)
    ensures SignOutSticks(c) <==> c.refreshPromise.None?
  {
    var out := Step(c, ReplaceTokens(None));
    StepKeepsInv(c, ReplaceTokens(None));
    if c.refreshPromise.Some? {
      var pair := TokenPair(0, 0);
      var events := [FinishRefresh(c.refreshPromise.value, Some(pair))];
      assert events[..0] == [];
      assert Held(Run(out, events)) == Some(pair);
      assert forall e :: e in events ==> !SignsIn(e);
    } else {
      forall events: seq<Event> | forall e :: e in events ==> !SignsIn(e)
        ensures Held(Run(out, events)).None?
      {
        StaysSignedOut(out, events);
      }
    }
  }

  lemma {:induction false} RunSnoc(c: Client, events: seq<Event>, e: Event)
    ensures Run(c, events + [e]) == Step(Run(c, events), e)
  {
    assert (events + [e])[..|events|] == events;
  }

  /** Signed in, and one request answered 401. */
  function RefreshStarted(first: TokenPair): seq<Event> {
    [ReplaceTokens(Some(first))] + [Send(true)] + [Respond(0, 401)]
  }

  lemma {:induction false} ThreeSteps(c: Client, e1: Event, e2: Event, e3: Event)
    ensures Run(c, [e1] + [e2] + [e3]) == Step(Step(Step(c, e1), e2), e3)
  {
    assert [] + [e1] == [e1];
    RunSnoc(c, [], e1);
    RunSnoc(c, [e1], e2);
    RunSnoc(c, [e1] + [e2], e3);
  }

  lemma {:induction false} FirstRefreshStarts(c: Client)
    requires c.refreshToken.Some? && c.refreshPromise.None? && c.requests == [] && c.nextRefresh == 0
    ensures 0 in Step(Step(c, Send(true)), Respond(0, 401)).inFlight
  {
    var sent := Step(c, Send(true));
    assert sent.requests[0] == Request(true, Sending(false), 1, None, None);
  }

  lemma {:induction false} RefreshRuns(first: TokenPair)
    ensures 0 in Run(FRESH, RefreshStarted(first)).inFlight
  {
    ThreeSteps(FRESH, ReplaceTokens(Some(first)), Send(true), Respond(0, 401));
    FirstRefreshStarts(Step(FRESH, ReplaceTokens(Some(first))));
  }

  /** Signed out while that refresh runs, which then succeeds: the client holds the new pair. */
  lemma {:induction false} SignOutUndone(first: TokenPair, second: TokenPair)
    ensures Held(Run(FRESH, RefreshStarted(first) + [ReplaceTokens(None)])).None?
    ensures Held(Run(FRESH, RefreshStarted(first) + [ReplaceTokens(None)] + [FinishRefresh(0, Some(second))])) == Some(second)
  {
    var events := RefreshStarted(first);
    RefreshRuns(first);
    RunSnoc(FRESH, events, ReplaceTokens(None));
    RunSnoc(FRESH, events + [ReplaceTokens(None)], FinishRefresh(0, Some(second)));
  }
}
