/** The frontend's API client: requests that answer a 401 by joining one shared token refresh and sending once more.
    Each event below is what runs between two awaits; any number of requests interleave. */
module ApiClient {
  import opened Wrappers
  import opened Sums

  type Token = nat
  datatype TokenPair = TokenPair(access: Token, refresh: Token)

  type RefreshId = nat

  datatype Outcome = Fine | ApiError(status: int) | NetworkFailed

  datatype Phase =
    | Sending(retry: bool)
    | AwaitingRefresh(refresh: RefreshId)
    | Settled(outcome: Outcome)

  /** A request, with what it has done so far and what it was told by the refresh it joined. */
  datatype Request = Request(auth: bool, phase: Phase, sends: nat, joined: Option<RefreshId>, told: Option<bool>)

  datatype Client = Client(
    accessToken: Option<Token>,
    refreshToken: Option<Token>,
    refreshPromise: Option<RefreshId>,
    listening: bool,
    lastHeard: Option<Option<TokenPair>>,
    requests: seq<Request>,
    inFlight: set<RefreshId>,
    verdicts: map<RefreshId, bool>,
    nextRefresh: RefreshId
  )

  const FRESH := Client(None, None, None, false, None, [], {}, map[], 0)

  datatype Event =
    | Send(auth: bool)
    | Respond(id: nat, status: int)
    | FailToSend(id: nat)
    | FinishRefresh(refresh: RefreshId, tokens: Option<TokenPair>)
    | Resume(id: nat)
    | ReplaceTokens(tokens: Option<TokenPair>)
    | Listen(on: bool)

  function Held(c: Client): Option<TokenPair> {
    if c.accessToken.Some? && c.refreshToken.Some? then Some(TokenPair(c.accessToken.value, c.refreshToken.value)) else None
  }

  /** The one place tokens change; the listener hears of every change. */
  function SetTokens(c: Client, tokens: Option<TokenPair>): Client {
    c.(accessToken := if tokens.Some? then Some(tokens.value.access) else None,
       refreshToken := if tokens.Some? then Some(tokens.value.refresh) else None,
       lastHeard := if c.listening then Some(tokens) else c.lastHeard)
  }

  predicate IsOk(status: int) { 200 <= status < 300 }

  function Settle(c: Client, id: nat, outcome: Outcome): Client
    requires id < |c.requests|
  {
    c.(requests := c.requests[id := c.requests[id].(phase := Settled(outcome))])
  }

  /** Join the refresh in flight, or start one. */
  function JoinRefresh(c: Client, id: nat): Client
    requires id < |c.requests|
  {
    var p := if c.refreshPromise.Some? then c.refreshPromise.value else c.nextRefresh;
    var joined := c.(requests := c.requests[id := c.requests[id].(phase := AwaitingRefresh(p), joined := Some(p))]);
    if c.refreshPromise.Some? then joined
    else joined.(refreshPromise := Some(p), inFlight := c.inFlight + {p}, nextRefresh := c.nextRefresh + 1)
  }

  predicate IsSending(c: Client, id: nat) { id < |c.requests| && c.requests[id].phase.Sending? }

  predicate Enabled(c: Client, e: Event) {
    match e
    case Send(_) => true
    case Respond(id, _) => IsSending(c, id)
    case FailToSend(id) => IsSending(c, id)
    case FinishRefresh(p, _) => p in c.inFlight
    case Resume(id) => id < |c.requests| && c.requests[id].phase.AwaitingRefresh? && c.requests[id].phase.refresh in c.verdicts
    case ReplaceTokens(_) => true
    case Listen(_) => true
  }

  function Step(c: Client, e: Event): Client {
    if !Enabled(c, e) then c
    else
      match e
      case Send(auth) => c.(requests := c.requests + [Request(auth, Sending(false), 1, None, None)])
      case Respond(id, status) =>
        var r := c.requests[id];
        if status == 401 && r.auth && !r.phase.retry then
          if c.refreshToken.None? then Settle(c, id, ApiError(status)) else JoinRefresh(c, id)
        else Settle(c, id, if IsOk(status) then Fine else ApiError(status))
      case FailToSend(id) => Settle(c, id, NetworkFailed)
      case FinishRefresh(p, tokens) =>
        SetTokens(c, tokens).(refreshPromise := None, inFlight := c.inFlight - {p}, verdicts := c.verdicts[p := tokens.Some?])
      case Resume(id) =>
        var r := c.requests[id];
        var verdict := c.verdicts[r.phase.refresh];
        var told := r.(told := Some(verdict));
        if verdict then c.(requests := c.requests[id := told.(phase := Sending(true), sends := r.sends + 1)])
        else c.(requests := c.requests[id := told.(phase := Settled(ApiError(401)))])
      case ReplaceTokens(tokens) => SetTokens(c, tokens)
      case Listen(on) => c.(listening := on, lastHeard := None)
  }

  function Run(c: Client, events: seq<Event>): Client {
    if events == [] then c else Step(Run(c, events[..|events| - 1]), events[|events| - 1])
  }

  // ----- the invariant

  /** At most one refresh runs, and it is the one the client points to. */
  ghost predicate SingleFlight(c: Client) {
    && c.inFlight == (if c.refreshPromise.Some? then {c.refreshPromise.value} else {})
    && (forall p :: p in c.inFlight ==> p !in c.verdicts && p < c.nextRefresh)
    && (forall p :: p in c.verdicts ==> p < c.nextRefresh)
  }

  /** How far a request can be, phase by phase: one send before a refresh, at most one refresh, one send after. */
  ghost predicate RequestSound(c: Client, r: Request) {
    && (r.told.Some? ==> r.joined.Some? && r.joined.value in c.verdicts && c.verdicts[r.joined.value] == r.told.value)
    && match r.phase
       case Sending(false) => r.sends == 1 && r.joined.None? && r.told.None?
       case AwaitingRefresh(p) => r.sends == 1 && r.joined == Some(p) && r.told.None? && (p in c.inFlight || p in c.verdicts)
       case Sending(true) => r.sends == 2 && r.told == Some(true)
       case Settled(_) => 1 <= r.sends <= 2 && (r.sends == 2 ==> r.told == Some(true))
  }

  /** What the listener heard last is what the client holds. */
  ghost predicate ListenerUpToDate(c: Client) {
    && (c.accessToken.Some? <==> c.refreshToken.Some?)
    && (c.lastHeard.Some? && c.listening ==> c.lastHeard.value == Held(c))
  }

  ghost predicate Inv(c: Client) {
    && SingleFlight(c) && ListenerUpToDate(c)
    && forall i :: 0 <= i < |c.requests| ==> RequestSound(c, c.requests[i])
  }

  lemma {:induction false} StepKeepsSingleFlight(c: Client, e: Event)
    requires SingleFlight(c)
    ensures SingleFlight(Step(c, e))
  {
  }

  /** A refresh that was running still is or has its verdict, and verdicts are written once. */
  ghost predicate RefreshesAdvance(c: Client, later: Client) {
    && (forall p :: p in c.inFlight ==> p in later.inFlight || p in later.verdicts)
    && (forall p :: p in c.verdicts ==> p in later.verdicts && later.verdicts[p] == c.verdicts[p])
  }

  lemma {:induction false} StepAdvances(c: Client, e: Event)
    requires SingleFlight(c)
    ensures RefreshesAdvance(c, Step(c, e))
  {
  }

  lemma {:induction false} SoundnessCarries(c: Client, later: Client, r: Request)
    requires RequestSound(c, r) && RefreshesAdvance(c, later)
    ensures RequestSound(later, r)
  {
  }

  predicate Changes(e: Event, i: nat) {
    (e.Respond? || e.FailToSend? || e.Resume?) && e.id == i
  }

  /** The request an event is about moves on soundly. */
  lemma {:induction false} MoverStaysSound(c: Client, e: Event, i: nat)
    requires SingleFlight(c) && i < |c.requests| && RequestSound(c, c.requests[i])
    requires Changes(e, i)
    ensures RequestSound(Step(c, e), Step(c, e).requests[i])
  {
    StepAdvances(c, e);
    SoundnessCarries(c, Step(c, e), c.requests[i]);
  }

  lemma {:induction false} OthersUntouched(c: Client, e: Event, i: nat)
    requires i < |c.requests| && !Changes(e, i)
    ensures i < |Step(c, e).requests| && Step(c, e).requests[i] == c.requests[i]
  {
  }

  lemma {:induction false} StepKeepsRequest(c: Client, e: Event, i: nat)
    requires SingleFlight(c) && (forall j :: 0 <= j < |c.requests| ==> RequestSound(c, c.requests[j]))
    requires i < |Step(c, e).requests|
    ensures RequestSound(Step(c, e), Step(c, e).requests[i])
  {
    if i < |c.requests| {
      if Changes(e, i) {
        MoverStaysSound(c, e, i);
      } else {
        StepAdvances(c, e);
        OthersUntouched(c, e, i);
        SoundnessCarries(c, Step(c, e), c.requests[i]);
      }
    }
  }

  lemma {:induction false} StepKeepsInv(c: Client, e: Event)
    requires Inv(c)
    ensures Inv(Step(c, e))
  {
    StepKeepsSingleFlight(c, e);
    forall i | 0 <= i < |Step(c, e).requests|
      ensures RequestSound(Step(c, e), Step(c, e).requests[i])
    {
      StepKeepsRequest(c, e, i);
    }
  }

  lemma {:induction false} RunKeepsInvFrom(c: Client, events: seq<Event>)
    requires Inv(c)
    ensures Inv(Run(c, events))
  {
    if events != [] {
      RunKeepsInvFrom(c, events[..|events| - 1]);
      StepKeepsInv(Run(c, events[..|events| - 1]), events[|events| - 1]);
    }
  }

  lemma {:induction false} RunKeepsInv(events: seq<Event>)
    ensures Inv(Run(FRESH, events))
  {
    RunKeepsInvFrom(FRESH, events);
  }

  // ----- what every interleaving guarantees

  /** In every interleaving: at most one refresh in flight, at most two sends per request, callers that joined the
      same refresh were told the same, and the listener heard the tokens held. */
  lemma {:induction false} EveryInterleaving(events: seq<Event>)
    ensures var c := Run(FRESH, events);
      && |c.inFlight| <= 1
      && (forall i :: 0 <= i < |c.requests| ==> c.requests[i].sends <= 2)
      && (forall i, j :: 0 <= i < |c.requests| && 0 <= j < |c.requests|
            && c.requests[i].joined == c.requests[j].joined && c.requests[i].told.Some? && c.requests[j].told.Some?
            ==> c.requests[i].told == c.requests[j].told)
      && (c.listening && c.lastHeard.Some? ==> c.lastHeard.value == Held(c))
  {
    RunKeepsInv(events);
    var c := Run(FRESH, events);
    assert forall i :: 0 <= i < |c.requests| ==> RequestSound(c, c.requests[i]);
  }

  /** A sign-in, a sign-out and the end of the refresh in flight put their tokens in place and tell the listener of
      the moment, if there is one; nothing else moves the tokens, and only setting a listener changes the listener. */
  lemma {:induction false} ListenerHears(c: Client, e: Event)
    requires c.accessToken.Some? <==> c.refreshToken.Some?
    ensures var after := Step(c, e);
      && after.listening == (if e.Listen? then e.on else c.listening)
      && (e.ReplaceTokens? || (e.FinishRefresh? && e.refresh in c.inFlight) ==>
            Held(after) == e.tokens && (after.listening ==> after.lastHeard == Some(e.tokens)))
      && (!e.ReplaceTokens? && !(e.FinishRefresh? && e.refresh in c.inFlight) ==>
            Held(after) == Held(c) && after.lastHeard == if e.Listen? then None else c.lastHeard)
  {
  }

  /** How a response settles a request: 200 to 299 is its success and any other status its error, a first 401 of an
      authorised request aside that still has a refresh to wait for; a send that fails settles it as that. */
  lemma {:induction false} ResponseSettles(c: Client, id: nat, status: int)
    requires IsSending(c, id)
    ensures var after, r := Step(c, Respond(id, status)), c.requests[id];
      && |after.requests| == |c.requests|
      && (status == 401 && r.auth && r.phase == Sending(false) && c.refreshToken.Some? ==> after.requests[id].phase.AwaitingRefresh?)
      && (!(status == 401 && r.auth && r.phase == Sending(false) && c.refreshToken.Some?) ==>
            && after.requests[id].phase == Settled(if 200 <= status <= 299 then Fine else ApiError(status))
            && Held(after) == Held(c) && after.inFlight == c.inFlight)
    ensures Step(c, FailToSend(id)).requests[id].phase == Settled(NetworkFailed)
  {
  }

  /** A new request is sent once, as it was asked for, and has joined nothing. */
  lemma {:induction false} SendStarts(c: Client, auth: bool)
    ensures Step(c, Send(auth)).requests == c.requests + [Request(auth, Sending(false), 1, None, None)]
  {
  }

  /** A request joins at most one refresh: once it has joined, it never joins another. */
  lemma {:induction false} JoinsOnce(c: Client, e: Event, i: nat)
    requires Inv(c) && i < |c.requests|
    ensures i < |Step(c, e).requests|
    ensures c.requests[i].joined.Some? ==> Step(c, e).requests[i].joined == c.requests[i].joined
    ensures c.requests[i].told.Some? ==> Step(c, e).requests[i].told == c.requests[i].told
    ensures Step(c, e).requests[i].sends <= c.requests[i].sends + 1
  {
    assert RequestSound(c, c.requests[i]);
  }

  // ----- termination

  /** How much a request can still do. */
  function Remaining(): Request -> int {
    (r: Request) =>
      match r.phase
      case Sending(false) => 4
      case AwaitingRefresh(_) => 2
      case Sending(true) => 1
      case Settled(_) => 0
  }

  function Measure(c: Client): int { Sum(c.requests, Remaining()) + |c.inFlight| }

  lemma {:induction false} SumUpdate(requests: seq<Request>, i: nat, r: Request)
    requires i < |requests|
    ensures Sum(requests[i := r], Remaining()) == Sum(requests, Remaining()) - Remaining()(requests[i]) + Remaining()(r)
    decreases |requests|
  {
    var n := |requests| - 1;
    var updated := requests[i := r];
    if i < n {
      SumUpdate(requests[..n], i, r);
      assert updated[..n] == requests[..n][i := r];
    } else {
      assert updated[..n] == requests[..n];
    }
  }

  predicate Internal(e: Event) { e.Respond? || e.FailToSend? || e.FinishRefresh? || e.Resume? }

  lemma {:induction false} RespondMeasure(c: Client, id: nat, status: int)
    requires Inv(c) && IsSending(c, id)
    ensures Measure(Step(c, Respond(id, status))) < Measure(c)
  {
    SumUpdate(c.requests, id, Step(c, Respond(id, status)).requests[id]);
    assert RequestSound(c, c.requests[id]);
    assert |c.inFlight + {c.nextRefresh}| <= |c.inFlight| + 1;
  }

  lemma {:induction false} ResumeMeasure(c: Client, id: nat)
    requires Inv(c) && Enabled(c, Resume(id))
    ensures Measure(Step(c, Resume(id))) < Measure(c)
  {
    SumUpdate(c.requests, id, Step(c, Resume(id)).requests[id]);
  }

  lemma {:induction false} SendMeasure(c: Client, auth: bool)
    ensures Measure(Step(c, Send(auth))) == Measure(c) + 4
  {
    SumSnoc(c.requests, Request(auth, Sending(false), 1, None, None), Remaining());
  }

  lemma {:induction false} FailMeasure(c: Client, id: nat)
    requires IsSending(c, id)
    ensures Measure(Step(c, FailToSend(id))) < Measure(c)
  {
    SumUpdate(c.requests, id, Step(c, FailToSend(id)).requests[id]);
  }

  lemma {:induction false} FinishMeasure(c: Client, p: RefreshId, tokens: Option<TokenPair>)
    requires p in c.inFlight
    ensures Measure(Step(c, FinishRefresh(p, tokens))) < Measure(c)
  {
    assert Step(c, FinishRefresh(p, tokens)).requests == c.requests;
    assert c.inFlight == (c.inFlight - {p}) + {p};
  }

  /** Every internal step uses something up; a new request brings four units; nothing else matters. */
  lemma {:induction false} StepMeasure(c: Client, e: Event)
    requires Inv(c)
    ensures Internal(e) && Enabled(c, e) ==> Measure(Step(c, e)) < Measure(c)
    ensures e.Send? ==> Measure(Step(c, e)) == Measure(c) + 4
    ensures !Internal(e) && !e.Send? ==> Measure(Step(c, e)) == Measure(c)
  {
    if Enabled(c, e) {
      match e {
        case Send(auth) => SendMeasure(c, auth);
        case Respond(id, status) => RespondMeasure(c, id, status);
        case FailToSend(id) => FailMeasure(c, id);
        case FinishRefresh(p, tokens) => FinishMeasure(c, p, tokens);
        case Resume(id) => ResumeMeasure(c, id);
        case _ =>
      }
    }
  }

  function Work(c: Client, events: seq<Event>): nat {
    if events == [] then 0
    else
      var front, last := events[..|events| - 1], events[|events| - 1];
      Work(c, front) + (if Internal(last) && Enabled(Run(c, front), last) then 1 else 0)
  }

  function Sends(events: seq<Event>): nat {
    if events == [] then 0 else Sends(events[..|events| - 1]) + (if events[|events| - 1].Send? then 1 else 0)
  }

  lemma {:induction false} MeasureNonNegative(c: Client)
    ensures Measure(c) >= 0
  {
    SumBounds(c.requests, Remaining(), 0, 4);
  }

  lemma {:induction false} WorkAccounted(events: seq<Event>)
    ensures Work(FRESH, events) + Measure(Run(FRESH, events)) <= 4 * Sends(events)
  {
    if events != [] {
      var front := events[..|events| - 1];
      WorkAccounted(front);
      RunKeepsInv(front);
      StepMeasure(Run(FRESH, front), events[|events| - 1]);
    }
  }

  /** No request loops: all the responses, refreshes and resumptions of a run are at most four per request. */
  lemma {:induction false} WorkIsBounded(events: seq<Event>)
    ensures Work(FRESH, events) <= 4 * Sends(events)
  {
    WorkAccounted(events);
    MeasureNonNegative(Run(FRESH, events));
  }

  /** Nobody waits on a refresh that is not running: an unsettled request, or the refresh it waits on, can move. */
  lemma {:induction false} NeverStuck(events: seq<Event>, i: nat)
    requires i < |Run(FRESH, events).requests| && !Run(FRESH, events).requests[i].phase.Settled?
    ensures var c := Run(FRESH, events);
      || Enabled(c, Respond(i, 200)) || Enabled(c, Resume(i))
      || (c.requests[i].phase.AwaitingRefresh? && Enabled(c, FinishRefresh(c.requests[i].phase.refresh, None)))
  {
    RunKeepsInv(events);
    var c := Run(FRESH, events);
    assert RequestSound(c, c.requests[i]);
  }

  // ----- the class

  /** The client object; `requests`, `inFlight` and `verdicts` stand for the suspended calls and their promises. */
  class ApiClientObject {
    var accessToken: Option<Token>
    var refreshToken: Option<Token>
    var refreshPromise: Option<RefreshId>
    var listening: bool
    var lastHeard: Option<Option<TokenPair>>
    var requests: seq<Request>
    var inFlight: set<RefreshId>
    var verdicts: map<RefreshId, bool>
    var nextRefresh: RefreshId

    function Contents(): Client
      reads this
    {
      Client(accessToken, refreshToken, refreshPromise, listening, lastHeard, requests, inFlight, verdicts, nextRefresh)
    }

    constructor ()
      ensures Contents() == FRESH
    {
      accessToken, refreshToken, refreshPromise := None, None, None;
      listening, lastHeard := false, None;
      requests, inFlight, verdicts, nextRefresh := [], {}, map[], 0;
    }

    method SetOnTokensChange(on: bool)
      modifies this
      ensures Contents() == Step(old(Contents()), Listen(on))
    {
      listening, lastHeard := on, None;
    }

    method SetTokenPair(tokens: Option<TokenPair>)
      modifies this
      ensures Contents() == SetTokens(old(Contents()), tokens)
      ensures Contents() == Step(old(Contents()), ReplaceTokens(tokens))
    {
      accessToken := if tokens.Some? then Some(tokens.value.access) else None;
      refreshToken := if tokens.Some? then Some(tokens.value.refresh) else None;
      if listening {
        lastHeard := Some(tokens);
      }
    }

    /** Up to the first await: the request is on its way. */
    method FetchWithAuth(auth: bool) returns (id: nat)
      modifies this
      ensures Contents() == Step(old(Contents()), Send(auth)) && id == |old(requests)|
    {
      id := |requests|;
      requests := requests + [Request(auth, Sending(false), 1, None, None)];
    }

    /** From a response to the next await or the end. */
    method OnResponse(id: nat, status: int)
      requires IsSending(Contents(), id)
      modifies this
      ensures Contents() == Step(old(Contents()), Respond(id, status))
    {
      var r := requests[id];
      if status == 401 && r.auth && !r.phase.retry {
        var p := RefreshAccessToken();
        if p.Some? {
          requests := requests[id := r.(phase := AwaitingRefresh(p.value), joined := p)];
          return;
        }
      }
      requests := requests[id := r.(phase := Settled(if IsOk(status) then Fine else ApiError(status)))];
    }

    /** None when there is nothing to refresh with; otherwise the promise to wait on. */
    method RefreshAccessToken() returns (p: Option<RefreshId>)
      modifies this`refreshPromise, this`inFlight, this`nextRefresh
      ensures p.None? <==> refreshToken.None?
      ensures p.None? || old(refreshPromise).Some? ==> Contents() == old(Contents())
      ensures p.Some? && old(refreshPromise).Some? ==> p == old(refreshPromise)
      ensures p.Some? && old(refreshPromise).None? ==>
        p == Some(old(nextRefresh)) &&
        Contents() == old(Contents()).(refreshPromise := p, inFlight := old(inFlight) + {p.value}, nextRefresh := p.value + 1)
    {
      if refreshToken.None? {
        return None;
      }
      if refreshPromise.Some? {
        return refreshPromise;
      }
      p := Some(nextRefresh);
      inFlight, nextRefresh := inFlight + {nextRefresh}, nextRefresh + 1;
      refreshPromise := p;
    }

    /** The end of a refresh: tokens first, then the shared promise is cleared. */
    method OnRefreshDone(p: RefreshId, tokens: Option<TokenPair>)
      requires p in inFlight
      modifies this
      ensures Contents() == Step(old(Contents()), FinishRefresh(p, tokens))
    {
      SetTokenPair(tokens);
      refreshPromise := None;
      inFlight, verdicts := inFlight - {p}, verdicts[p := tokens.Some?];
    }

    /** From the awaited verdict to the second send or the end. */
    method OnResume(id: nat)
      requires Enabled(Contents(), Resume(id))
      modifies this
      ensures Contents() == Step(old(Contents()), Resume(id))
    {
      var r := requests[id];
      var refreshed := verdicts[r.phase.refresh];
      if refreshed {
        requests := requests[id := r.(phase := Sending(true), sends := r.sends + 1, told := Some(true))];
      } else {
        requests := requests[id := r.(phase := Settled(ApiError(401)), told := Some(false))];
      }
    }
  }
}
