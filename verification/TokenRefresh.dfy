/**
 * The technician app's API client under concurrent calls: a 401 triggers one
 * shared refresh, the refresh rotates the stored token pair, and each waiting
 * call retries once. Every step between two awaits is atomic; nobody signs in
 * or out meanwhile.
 */
module TokenRefresh {
  import opened Basics

  type Token = string

  /** Where one `api` call stands. */
  datatype Call =
    | First(token: Option<Token>, own: bool)
    | Waiting(task: nat)
    | Retrying(task: nat, renewed: Token)
    | Finished

  /** A running refresh: before and after it has read the stored refresh token. */
  datatype Task = Reading | Exchanging(sent: Token)

  /** A refresh the server granted: the token sent, the pair issued for it, and whether the answer arrived. */
  datatype Exchange = Exchange(sent: Token, access: Token, refresh: Token, seen: bool)

  /** `sent`: the bearer token of each request a call has sent, in order. */
  datatype State = State(
    access: Option<Token>,
    refresh: Option<Token>,
    refreshing: Option<nat>,
    tasks: map<nat, Task>,
    started: nat,
    results: map<nat, Option<Token>>,
    calls: map<nat, Call>,
    sent: map<nat, seq<Option<Token>>>,
    exchanges: seq<Exchange>)

  /** `Lost`: granted, but the answer never arrives. `Refused`: any other failure. */
  datatype RefreshReply =
    | Granted(access: Token, refresh: Token)
    | Lost(access: Token, refresh: Token)
    | Unauthorized
    | Refused

  datatype Event =
    | Begin(call: nat, token: Option<Token>)
    | FirstReply(call: nat, unauthorized: bool)
    | ReadStored(task: nat)
    | ExchangeReply(task: nat, reply: RefreshReply)
    | Resume(call: nat)
    | SecondReply(call: nat)

  function TokensSent(s: State, c: nat): seq<Option<Token>> {
    if c in s.sent then s.sent[c] else []
  }

  function SendsOf(s: State, c: nat): nat {
    |TokensSent(s, c)|
  }

  function Record(sent: map<nat, seq<Option<Token>>>, c: nat, token: Option<Token>): map<nat, seq<Option<Token>>> {
    sent[c := (if c in sent then sent[c] else []) + [token]]
  }

  /** The refresh ends: its result is settled and the shared promise is cleared. */
  function Settle(s: State, t: nat, result: Option<Token>): State {
    s.(tasks := s.tasks - {t}, refreshing := None, results := s.results[t := result])
  }

  /** `refreshing ??= …`: join the refresh in flight or start one. */
  function Join(s: State, c: nat): State {
    if s.refreshing.Some? then s.(calls := s.calls[c := Waiting(s.refreshing.value)])
    else s.(refreshing := Some(s.started), tasks := s.tasks[s.started := Reading], started := s.started + 1,
            calls := s.calls[c := Waiting(s.started)])
  }

  predicate IsToken(t: Option<Token>) {
    t.Some? && t.value != ""
  }

  function Next(s: State, e: Event): State {
    match e
    case Begin(c, token) =>
      if c in s.calls then s
      else
        var bearer := if token.Some? then token else s.access;
        s.(calls := s.calls[c := First(bearer, token.None?)], sent := Record(s.sent, c, bearer))
    case FirstReply(c, unauthorized) =>
      if !(c in s.calls && s.calls[c].First?) then s
      else if unauthorized && IsToken(s.calls[c].token) && s.calls[c].own then Join(s, c)
      else s.(calls := s.calls[c := Finished])
    case ReadStored(t) =>
      if !(t in s.tasks && s.tasks[t].Reading?) then s
      else if !IsToken(s.refresh) then Settle(s, t, None)
      else s.(tasks := s.tasks[t := Exchanging(s.refresh.value)])
    case ExchangeReply(t, reply) =>
      if !(t in s.tasks && s.tasks[t].Exchanging?) then s
      else
        var sent := s.tasks[t].sent;
        (match reply
         case Granted(access, refresh) =>
           Settle(s.(access := Some(access), refresh := Some(refresh), exchanges := s.exchanges + [Exchange(sent, access, refresh, true)]),
                  t, Some(access))
         case Lost(access, refresh) =>
           Settle(s.(exchanges := s.exchanges + [Exchange(sent, access, refresh, false)]), t, None)
         case Unauthorized => Settle(s.(access := None, refresh := None), t, None)
         case Refused => Settle(s, t, None))
    case Resume(c) =>
      if !(c in s.calls && s.calls[c].Waiting? && s.calls[c].task in s.results) then s
      else
        var renewed := s.results[s.calls[c].task];
        if IsToken(renewed)
        then s.(calls := s.calls[c := Retrying(s.calls[c].task, renewed.value)], sent := Record(s.sent, c, renewed))
        else s.(calls := s.calls[c := Finished])
    case SecondReply(c) =>
      if c in s.calls && s.calls[c].Retrying? then s.(calls := s.calls[c := Finished]) else s
  }

  function Run(s: State, events: seq<Event>): State {
    if events == [] then s else Next(Run(s, events[..|events| - 1]), events[|events| - 1])
  }

  function SignedIn(access: Option<Token>, refresh: Option<Token>): State {
    State(access, refresh, None, map[], 0, map[], map[], map[], [])
  }

  // ---------------------------------------------------------------- the client as an object

  class Client {
    var access: Option<Token>
    var refresh: Option<Token>
    var refreshing: Option<nat>
    var tasks: map<nat, Task>
    var started: nat
    var results: map<nat, Option<Token>>
    var calls: map<nat, Call>
    var sent: map<nat, seq<Option<Token>>>
    var exchanges: seq<Exchange>

    ghost function Abs(): State
      reads this
    {
      State(access, refresh, refreshing, tasks, started, results, calls, sent, exchanges)
    }

    constructor (access: Option<Token>, refresh: Option<Token>)
      ensures Abs() == SignedIn(access, refresh)
    {
      this.access, this.refresh, refreshing, tasks, started := access, refresh, None, map[], 0;
      results, calls, sent, exchanges := map[], map[], map[], [];
    }

    method Api(call: nat, token: Option<Token>)
      modifies this
      ensures Abs() == Next(old(Abs()), Begin(call, token))
      ensures call !in old(calls) ==>
                call in sent && sent[call] == old(TokensSent(Abs(), call)) + [if token.Some? then token else access]
    {
      if call !in calls {
        var bearer := if token.Some? then token else access;
        calls := calls[call := First(bearer, token.None?)];
        sent := Record(sent, call, bearer);
      }
    }

    method RefreshAccessToken() returns (task: nat)
      modifies `refreshing, `tasks, `started
      ensures refreshing == Some(task)
      ensures old(refreshing).Some? ==>
                task == old(refreshing).value && tasks == old(tasks) && started == old(started)
      ensures old(refreshing).None? ==>
                task == old(started) && tasks == old(tasks)[task := Reading] && started == task + 1
    {
      if refreshing.None? {
        refreshing := Some(started);
        tasks := tasks[started := Reading];
        started := started + 1;
      }
      task := refreshing.value;
    }

    method OnFirstReply(call: nat, unauthorized: bool)
      modifies this
      ensures Abs() == Next(old(Abs()), FirstReply(call, unauthorized))
      ensures call in old(calls) && old(calls)[call].First? ==>
                var own := old(calls)[call].own && old(calls)[call].token.GetOr("") != "";
                call in calls
                && (unauthorized && own ==> refreshing.Some? && calls[call] == Waiting(refreshing.value))
                && (!unauthorized || !own ==> calls[call] == Finished && refreshing == old(refreshing))
    {
      if call in calls && calls[call].First? {
        if unauthorized && IsToken(calls[call].token) && calls[call].own {
          var task := RefreshAccessToken();
          calls := calls[call := Waiting(task)];
        } else {
          calls := calls[call := Finished];
        }
      }
    }

    method FinishRefresh(task: nat, result: Option<Token>)
      modifies `tasks, `refreshing, `results
      ensures Abs() == Settle(old(Abs()), task, result)
    {
      tasks := tasks - {task};
      results := results[task := result];
      refreshing := None;
    }

    method OnReadStored(task: nat)
      modifies this
      ensures Abs() == Next(old(Abs()), ReadStored(task))
      ensures task in old(tasks) && old(tasks)[task].Reading? ==>
                if refresh.GetOr("") != "" then task in tasks && tasks[task] == Exchanging(refresh.value)
                else refreshing == None && task in results && results[task] == None
    {
      if task in tasks && tasks[task].Reading? {
        if !IsToken(refresh) {
          FinishRefresh(task, None);
        } else {
          tasks := tasks[task := Exchanging(refresh.value)];
        }
      }
    }

    method OnExchangeReply(task: nat, reply: RefreshReply)
      modifies this
      ensures Abs() == Next(old(Abs()), ExchangeReply(task, reply))
      ensures task in old(tasks) && old(tasks)[task].Exchanging? ==>
                && refreshing == None && task in results
                && results[task] == (if reply.Granted? then Some(reply.access) else None)
                && access == (if reply.Granted? then Some(reply.access) else if reply.Unauthorized? then None else old(access))
                && refresh == (if reply.Granted? then Some(reply.refresh) else if reply.Unauthorized? then None else old(refresh))
                && exchanges == old(exchanges)
                     + if reply.Granted? || reply.Lost?
                       then [Exchange(old(tasks)[task].sent, reply.access, reply.refresh, reply.Granted?)] else []
    {
      if task in tasks && tasks[task].Exchanging? {
        match reply {
          case Granted(a, r) =>
            exchanges := exchanges + [Exchange(tasks[task].sent, a, r, true)];
            access, refresh := Some(a), Some(r);
            FinishRefresh(task, Some(a));
          case Lost(a, r) =>
            exchanges := exchanges + [Exchange(tasks[task].sent, a, r, false)];
            FinishRefresh(task, None);
          case Unauthorized =>
            access, refresh := None, None;
            FinishRefresh(task, None);
          case Refused =>
            FinishRefresh(task, None);
        }
      }
    }

    method OnResume(call: nat)
      modifies this
      ensures Abs() == Next(old(Abs()), Resume(call))
      ensures call in old(calls) && old(calls)[call].Waiting? && old(calls)[call].task in results ==>
                var renewed := results[old(calls)[call].task];
                call in calls
                && if renewed.GetOr("") == "" then calls[call] == Finished && sent == old(sent)
                   else calls[call].Retrying? && call in sent && sent[call] == old(TokensSent(Abs(), call)) + [renewed]
    {
      if call in calls && calls[call].Waiting? && calls[call].task in results {
        var renewed := results[calls[call].task];
        if IsToken(renewed) {
          calls := calls[call := Retrying(calls[call].task, renewed.value)];
          sent := Record(sent, call, renewed);
        } else {
          calls := calls[call := Finished];
        }
      }
    }

    method OnSecondReply(call: nat)
      modifies this
      ensures Abs() == Next(old(Abs()), SecondReply(call))
      ensures call in old(calls) && old(calls)[call].Retrying? ==> call in calls && calls[call] == Finished
    {
      if call in calls && calls[call].Retrying? {
        calls := calls[call := Finished];
      }
    }
  }

  // ---------------------------------------------------------------- invariants of every run

  /** At most one refresh runs, the shared one, and it has no result yet. */
  ghost predicate SingleFlight(s: State) {
    && (forall t :: t in s.tasks <==> s.refreshing == Some(t))
    && (s.refreshing.Some? ==> s.refreshing.value < s.started && s.refreshing.value !in s.results)
    && (forall t :: t in s.results ==> t < s.started)
  }

  /** Whoever waits, waits on the refresh in flight or on a settled one; whoever retries got its token. */
  ghost predicate SharedResult(s: State) {
    forall c :: c in s.calls ==>
      match s.calls[c]
      case Waiting(t) => s.refreshing == Some(t) || t in s.results
      case Retrying(t, token) => t in s.results && s.results[t] == Some(token)
      case _ => true
  }

  /** One send before the first reply and while waiting, two afterwards at most. */
  ghost predicate SendsBounded(s: State) {
    forall c ::
      if c !in s.calls then SendsOf(s, c) == 0
      else match s.calls[c]
        case First(_, _) => SendsOf(s, c) == 1
        case Waiting(_) => SendsOf(s, c) == 1
        case Retrying(_, _) => SendsOf(s, c) == 2
        case Finished => 1 <= SendsOf(s, c) <= 2
  }

  /** The refresh token the client holds after some grants: that of the last one it saw. */
  function Held(exchanges: seq<Exchange>, initial: Option<Token>): Option<Token> {
    if exchanges == [] then initial
    else
      var last := exchanges[|exchanges| - 1];
      if last.seen then Some(last.refresh) else Held(exchanges[..|exchanges| - 1], initial)
  }

  /** Each exchange sends the token held after those before it; the pending one sends what is stored now. */
  ghost predicate Chained(s: State, initial: Option<Token>) {
    && (forall i :: 0 <= i < |s.exchanges| ==> Held(s.exchanges[..i], initial) == Some(s.exchanges[i].sent))
    && (s.refresh.Some? ==> s.refresh == Held(s.exchanges, initial))
    && (forall t :: t in s.tasks && s.tasks[t].Exchanging? ==> s.refresh == Some(s.tasks[t].sent))
  }

  lemma SettleIsSingle(s: State, t: nat, result: Option<Token>)
    requires SingleFlight(s) && t in s.tasks
    ensures SingleFlight(Settle(s, t, result))
  {
  }

  lemma JoinIsSingle(s: State, c: nat)
    requires SingleFlight(s)
    ensures SingleFlight(Join(s, c))
  {
  }

  lemma SingleStep(s: State, e: Event)
    requires SingleFlight(s)
    ensures SingleFlight(Next(s, e))
  {
    hide Settle;
    hide Join;
    match e
    case Begin(_, _) =>
    case FirstReply(c, _) => JoinIsSingle(s, c);
    case ReadStored(t) =>
      if t in s.tasks {
        SettleIsSingle(s, t, None);
      }
    case ExchangeReply(t, reply) =>
      if t in s.tasks && s.tasks[t].Exchanging? {
        ExchangeIsSingle(s, t, reply);
      }
    case Resume(_) =>
    case SecondReply(_) =>
  }

  /** Changing the tokens and the history is no matter to the flight. */
  lemma ExchangeIsSingle(s: State, t: nat, reply: RefreshReply)
    requires SingleFlight(s) && t in s.tasks && s.tasks[t].Exchanging?
    ensures SingleFlight(Next(s, ExchangeReply(t, reply)))
  {
    match reply
    case Granted(_, _) =>
    case Lost(_, _) =>
    case Unauthorized =>
    case Refused =>
  }

  lemma {:induction false} RunIsSingleFlight(access: Option<Token>, refresh: Option<Token>, events: seq<Event>)
    ensures SingleFlight(Run(SignedIn(access, refresh), events))
  {
    hide SingleFlight;
    if events == [] {
      assert SingleFlight(SignedIn(access, refresh)) by { SingleAtStart(access, refresh); }
    } else {
      RunIsSingleFlight(access, refresh, events[..|events| - 1]);
      SingleStep(Run(SignedIn(access, refresh), events[..|events| - 1]), events[|events| - 1]);
    }
  }

  lemma SingleAtStart(access: Option<Token>, refresh: Option<Token>)
    ensures SingleFlight(SignedIn(access, refresh))
  {
  }

  lemma SharedSettle(s: State, t: nat, result: Option<Token>)
    requires SingleFlight(s) && SharedResult(s) && t in s.tasks
    ensures SharedResult(Settle(s, t, result))
  {
  }

  lemma SharedStep(s: State, e: Event)
    requires SingleFlight(s) && SharedResult(s)
    ensures SharedResult(Next(s, e))
  {
    hide Settle;
    match e
    case Begin(_, _) =>
    case FirstReply(_, _) =>
    case ReadStored(t) =>
      if t in s.tasks {
        SharedSettle(s, t, None);
      }
    case ExchangeReply(t, reply) =>
      if t in s.tasks && s.tasks[t].Exchanging? {
        SharedExchange(s, t, reply);
      }
    case Resume(_) =>
    case SecondReply(_) =>
  }

  lemma SharedExchange(s: State, t: nat, reply: RefreshReply)
    requires SingleFlight(s) && SharedResult(s) && t in s.tasks && s.tasks[t].Exchanging?
    ensures SharedResult(Next(s, ExchangeReply(t, reply)))
  {
    match reply
    case Granted(_, _) =>
    case Lost(_, _) =>
    case Unauthorized =>
    case Refused =>
  }

  /** All callers that wait on one refresh go on with the same token: the one that refresh settled with. */
  lemma {:induction false} WaitersShareOneToken(access: Option<Token>, refresh: Option<Token>, events: seq<Event>)
    ensures SharedResult(Run(SignedIn(access, refresh), events))
    ensures var s := Run(SignedIn(access, refresh), events);
            forall c, d :: (c in s.calls && d in s.calls && s.calls[c].Retrying? && s.calls[d].Retrying?
                            && s.calls[c].task == s.calls[d].task) ==> s.calls[c].renewed == s.calls[d].renewed
  {
    if events != [] {
      var init := events[..|events| - 1];
      WaitersShareOneToken(access, refresh, init);
      RunIsSingleFlight(access, refresh, init);
      SharedStep(Run(SignedIn(access, refresh), init), events[|events| - 1]);
    }
  }

  /** A step that touches one call keeps the bound of all others. */
  lemma SendOne(s: State, t: State, c: nat)
    requires SendsBounded(s)
    requires forall d :: d != c ==> (d in t.calls <==> d in s.calls) && SendsOf(t, d) == SendsOf(s, d)
    requires forall d :: d != c && d in s.calls ==> t.calls[d] == s.calls[d]
    requires c in t.calls
             && match t.calls[c]
                case First(_, _) => SendsOf(t, c) == 1
                case Waiting(_) => SendsOf(t, c) == 1
                case Retrying(_, _) => SendsOf(t, c) == 2
                case Finished => 1 <= SendsOf(t, c) <= 2
    ensures SendsBounded(t)
  {
  }

  lemma SendBegin(s: State, c: nat, token: Option<Token>)
    requires SendsBounded(s)
    ensures SendsBounded(Next(s, Begin(c, token)))
  {
    if c !in s.calls {
      SendOne(s, Next(s, Begin(c, token)), c);
    }
  }

  lemma SendFirst(s: State, c: nat, unauthorized: bool)
    requires SendsBounded(s)
    ensures SendsBounded(Next(s, FirstReply(c, unauthorized)))
  {
    if c in s.calls && s.calls[c].First? {
      SendOne(s, Next(s, FirstReply(c, unauthorized)), c);
    }
  }

  lemma SendResume(s: State, c: nat)
    requires SendsBounded(s)
    ensures SendsBounded(Next(s, Resume(c)))
  {
    if c in s.calls && s.calls[c].Waiting? && s.calls[c].task in s.results {
      SendOne(s, Next(s, Resume(c)), c);
    }
  }

  lemma SendSecond(s: State, c: nat)
    requires SendsBounded(s)
    ensures SendsBounded(Next(s, SecondReply(c)))
  {
    if c in s.calls && s.calls[c].Retrying? {
      SendOne(s, Next(s, SecondReply(c)), c);
    }
  }

  lemma SameSends(s: State, t: State)
    requires SendsBounded(s) && t.calls == s.calls && t.sent == s.sent
    ensures SendsBounded(t)
  {
  }

  lemma SendStep(s: State, e: Event)
    requires SendsBounded(s)
    ensures SendsBounded(Next(s, e))
  {
    hide SendsBounded;
    hide Settle;
    match e
    case Begin(c, token) => SendBegin(s, c, token);
    case FirstReply(c, unauthorized) => SendFirst(s, c, unauthorized);
    case ReadStored(t) =>
      SettleSendsNothing(s, t, None);
      SameSends(s, Next(s, e));
    case ExchangeReply(t, reply) =>
      ExchangeSendsNothing(s, t, reply);
      SameSends(s, Next(s, e));
    case Resume(c) => SendResume(s, c);
    case SecondReply(c) => SendSecond(s, c);
  }

  lemma SettleSendsNothing(s: State, t: nat, result: Option<Token>)
    ensures Settle(s, t, result).calls == s.calls && Settle(s, t, result).sent == s.sent
  {
  }

  lemma ExchangeSendsNothing(s: State, t: nat, reply: RefreshReply)
    ensures Next(s, ExchangeReply(t, reply)).calls == s.calls && Next(s, ExchangeReply(t, reply)).sent == s.sent
  {
  }

  /** No `api` call sends its request more than twice. */
  lemma {:induction false} AtMostTwoSends(access: Option<Token>, refresh: Option<Token>, events: seq<Event>)
    ensures SendsBounded(Run(SignedIn(access, refresh), events))
    ensures forall c :: SendsOf(Run(SignedIn(access, refresh), events), c) <= 2
  {
    if events != [] {
      AtMostTwoSends(access, refresh, events[..|events| - 1]);
      SendStep(Run(SignedIn(access, refresh), events[..|events| - 1]), events[|events| - 1]);
    }
  }

  // ---------------------------------------------------------------- which calls are sent again

  /** The state after the first `n` events. */
  function At(start: State, events: seq<Event>, n: nat): State
    requires n <= |events|
  {
    Run(start, events[..n])
  }

  lemma AtNext(start: State, events: seq<Event>, n: nat)
    requires n < |events|
    ensures At(start, events, n + 1) == Next(At(start, events, n), events[n])
  {
    assert events[..n + 1][..n] == events[..n];
  }

  predicate IsBegin(e: Event, c: nat) {
    e.Begin? && e.call == c
  }

  predicate IsFirstReply(e: Event, c: nat) {
    e.FirstReply? && e.call == c
  }

  /** The call begins: later events of that kind are not of this call. */
  ghost predicate BeginsAt(events: seq<Event>, c: nat, i: nat) {
    i < |events| && IsBegin(events[i], c) && forall h :: 0 <= h < i ==> !IsBegin(events[h], c)
  }

  /** The reply to the request sent at `i`. */
  ghost predicate RepliedAt(events: seq<Event>, c: nat, i: nat, j: nat) {
    i < j < |events| && IsFirstReply(events[j], c) && forall h :: i < h < j ==> !IsFirstReply(events[h], c)
  }

  /** Sent with the stored session's own token, which was there, and answered with a 401. */
  ghost predicate Denied(start: State, events: seq<Event>, c: nat, i: nat, j: nat) {
    && BeginsAt(events, c, i) && RepliedAt(events, c, i, j)
    && events[i].token.None? && At(start, events, i).access.GetOr("") != "" && events[j].unauthorized
  }

  /** The refresh `t` in flight is granted the access token `renewed`. */
  ghost predicate GrantedAt(start: State, events: seq<Event>, t: nat, m: nat, renewed: Token) {
    && m < |events| && events[m].ExchangeReply? && events[m].task == t
    && events[m].reply.Granted? && events[m].reply.access == renewed
    && At(start, events, m).refreshing == Some(t)
    && t in At(start, events, m).tasks && At(start, events, m).tasks[t].Exchanging?
  }

  /**
   * The call was denied at `j`, the refresh in flight just after that was then
   * granted the token `renewed`, and the call resumed.
   */
  ghost predicate Renewed(start: State, events: seq<Event>, c: nat, i: nat, j: nat, m: nat, k: nat, renewed: Token) {
    && Denied(start, events, c, i, j) && j < m < k < |events|
    && At(start, events, j + 1).refreshing.Some?
    && GrantedAt(start, events, At(start, events, j + 1).refreshing.value, m, renewed)
    && renewed != "" && events[k] == Resume(c)
  }

  ghost predicate Unbegun(s: State) {
    s.calls == map[] && s.results == map[] && s.sent == map[] && SingleFlight(s)
  }

  lemma {:induction false} NotBegun(start: State, events: seq<Event>, c: nat, n: nat)
    requires Unbegun(start) && n <= |events| && forall h :: 0 <= h < n ==> !IsBegin(events[h], c)
    ensures c !in At(start, events, n).calls && TokensSent(At(start, events, n), c) == []
  {
    hide Settle;
    hide Join;
    if n == 0 {
      assert events[..0] == [];
    } else {
      NotBegun(start, events, c, n - 1);
      AtNext(start, events, n - 1);
      JoinsOne(At(start, events, n - 1), c);
      SettlesNone(At(start, events, n - 1));
      UnbegunStep(At(start, events, n - 1), events[n - 1], c);
    }
  }

  lemma JoinsOne(s: State, c: nat)
    ensures forall d :: d != c ==> (d in Join(s, c).calls <==> d in s.calls) && (d in s.calls ==> Join(s, c).calls[d] == s.calls[d])
    ensures Join(s, c).sent == s.sent && Join(s, c).results == s.results
  {
  }

  lemma SettlesNone(s: State)
    ensures forall t, r :: Settle(s, t, r).calls == s.calls && Settle(s, t, r).sent == s.sent
  {
  }

  lemma UnbegunStep(s: State, e: Event, c: nat)
    requires c !in s.calls && !IsBegin(e, c)
    ensures c !in Next(s, e).calls && TokensSent(Next(s, e), c) == TokensSent(s, c)
  {
    hide Settle;
    match e
    case Begin(_, _) =>
    case FirstReply(_, _) =>
    case ReadStored(_) => SettlesNone(s);
    case ExchangeReply(t, reply) => ExchangeSendsNothing(s, t, reply);
    case Resume(_) =>
    case SecondReply(_) =>
  }

  predicate About(e: Event, c: nat) {
    (e.Begin? || e.FirstReply? || e.Resume? || e.SecondReply?) && e.call == c
  }

  /** A call is touched by its own events only. */
  lemma OtherCallsStay(s: State, e: Event, c: nat)
    requires c in s.calls && !About(e, c)
    ensures c in Next(s, e).calls && Next(s, e).calls[c] == s.calls[c] && TokensSent(Next(s, e), c) == TokensSent(s, c)
  {
    hide Settle;
    hide Join;
    match e
    case Begin(_, _) =>
    case FirstReply(d, _) => JoinsOne(s, d);
    case ReadStored(_) => SettlesNone(s);
    case ExchangeReply(t, reply) => ExchangeSendsNothing(s, t, reply);
    case Resume(_) =>
    case SecondReply(_) =>
  }

  /** A call waiting for its first reply is touched by that reply only. */
  lemma FirstStep(s: State, e: Event, c: nat)
    requires c in s.calls && s.calls[c].First? && !IsFirstReply(e, c)
    ensures c in Next(s, e).calls && Next(s, e).calls[c] == s.calls[c] && TokensSent(Next(s, e), c) == TokensSent(s, c)
  {
    if About(e, c) {
      assert Next(s, e) == s;
    } else {
      OtherCallsStay(s, e, c);
    }
  }

  lemma {:induction false} StillFirst(start: State, events: seq<Event>, c: nat, i: nat, n: nat)
    requires Unbegun(start) && BeginsAt(events, c, i) && i < n <= |events|
    requires forall h :: i < h < n ==> !IsFirstReply(events[h], c)
    ensures var s := At(start, events, n);
            var bearer := if events[i].token.Some? then events[i].token else At(start, events, i).access;
            && c in s.calls && s.calls[c] == First(bearer, events[i].token.None?)
            && TokensSent(s, c) == [bearer]
  {
    AtNext(start, events, n - 1);
    if n == i + 1 {
      NotBegun(start, events, c, i);
    } else {
      StillFirst(start, events, c, i, n - 1);
      FirstStep(At(start, events, n - 1), events[n - 1], c);
    }
  }

  lemma {:induction false} FlightAt(start: State, events: seq<Event>, n: nat)
    requires SingleFlight(start) && n <= |events|
    ensures SingleFlight(At(start, events, n))
  {
    hide SingleFlight;
    if n == 0 {
      assert events[..0] == [];
    } else {
      FlightAt(start, events, n - 1);
      AtNext(start, events, n - 1);
      SingleStep(At(start, events, n - 1), events[n - 1]);
    }
  }

  /** A denied call waits on a refresh: one is in flight right after the reply, whether or not one was before. */
  lemma DeniedWaits(start: State, events: seq<Event>, c: nat, i: nat, j: nat)
    requires Unbegun(start) && Denied(start, events, c, i, j)
    ensures var s := At(start, events, j + 1);
            && s.refreshing.Some? && s.refreshing.value in s.tasks
            && c in s.calls && s.calls[c] == Waiting(s.refreshing.value)
            && TokensSent(s, c) == [At(start, events, i).access]
            && (At(start, events, j).refreshing.Some? ==> s.refreshing == At(start, events, j).refreshing)
  {
    StillFirst(start, events, c, i, j);
    FlightAt(start, events, j + 1);
    AtNext(start, events, j);
  }

  /** Any other reply finishes the call without a second request. */
  lemma NotDeniedFinishes(start: State, events: seq<Event>, c: nat, i: nat, j: nat)
    requires Unbegun(start) && BeginsAt(events, c, i) && RepliedAt(events, c, i, j) && !Denied(start, events, c, i, j)
    ensures c in At(start, events, j + 1).calls && At(start, events, j + 1).calls[c].Finished?
    ensures |TokensSent(At(start, events, j + 1), c)| == 1
  {
    StillFirst(start, events, c, i, j);
    AtNext(start, events, j);
  }

  /** A waiting call is touched by its own resumption only, once its refresh has a result. */
  lemma WaitingStep(s: State, e: Event, c: nat)
    requires c in s.calls && s.calls[c].Waiting?
    requires !(e == Resume(c) && s.calls[c].task in s.results)
    ensures c in Next(s, e).calls && Next(s, e).calls[c] == s.calls[c] && TokensSent(Next(s, e), c) == TokensSent(s, c)
  {
    if About(e, c) {
      assert Next(s, e) == s;
    } else {
      OtherCallsStay(s, e, c);
    }
  }

  lemma ResultsStay(s: State, e: Event, t: nat)
    requires SingleFlight(s) && t in s.results
    ensures t in Next(s, e).results && Next(s, e).results[t] == s.results[t]
  {
  }

  lemma {:induction false} ResultsLast(start: State, events: seq<Event>, t: nat, m: nat, n: nat)
    requires SingleFlight(start) && m <= n <= |events| && t in At(start, events, m).results
    ensures t in At(start, events, n).results && At(start, events, n).results[t] == At(start, events, m).results[t]
  {
    hide Run;
    hide Next;
    hide SingleFlight;
    if m < n {
      ResultsLast(start, events, t, m, n - 1);
      FlightAt(start, events, n - 1);
      AtNext(start, events, n - 1);
      ResultsStay(At(start, events, n - 1), events[n - 1], t);
    }
  }

  /** Until its refresh settles a denied call waits, whatever else happens. */
  lemma {:induction false} StillWaiting(start: State, events: seq<Event>, c: nat, i: nat, j: nat, m: nat, n: nat)
    requires Unbegun(start) && Denied(start, events, c, i, j) && j < n <= m <= |events|
    requires At(start, events, m).refreshing == At(start, events, j + 1).refreshing
    ensures var s, t := At(start, events, n), At(start, events, j + 1).refreshing;
            t.Some? && c in s.calls && s.calls[c] == Waiting(t.value) && TokensSent(s, c) == [At(start, events, i).access]
  {
    hide Run;
    hide Next;
    hide Denied;
    DeniedWaits(start, events, c, i, j);
    var t := At(start, events, j + 1).refreshing.value;
    if n > j + 1 {
      StillWaiting(start, events, c, i, j, m, n - 1);
      AtNext(start, events, n - 1);
      FlightAt(start, events, m);
      if t in At(start, events, n - 1).results {
        ResultsLast(start, events, t, n - 1, m);
      }
      WaitingStep(At(start, events, n - 1), events[n - 1], c);
    }
  }

  lemma GrantSettles(start: State, events: seq<Event>, t: nat, m: nat, renewed: Token)
    requires SingleFlight(start) && GrantedAt(start, events, t, m, renewed)
    ensures t in At(start, events, m + 1).results && At(start, events, m + 1).results[t] == Some(renewed)
    ensures At(start, events, m + 1).calls == At(start, events, m).calls
    ensures At(start, events, m + 1).sent == At(start, events, m).sent
  {
    AtNext(start, events, m);
  }

  /** Once sent again a call stays so. */
  lemma SentAgainStays(s: State, e: Event, c: nat)
    requires c in s.calls && (s.calls[c].Retrying? || s.calls[c].Finished?)
    ensures c in Next(s, e).calls && (Next(s, e).calls[c].Retrying? || Next(s, e).calls[c].Finished?)
    ensures TokensSent(Next(s, e), c) == TokensSent(s, c)
  {
    if About(e, c) {
      assert Next(s, e) == s || e.SecondReply?;
    } else {
      OtherCallsStay(s, e, c);
    }
  }

  /** Where a granted call is: still waiting, or sent again with the granted token. */
  predicate WaitingOrSent(s: State, c: nat, t: nat, resumed: bool, first: Option<Token>, renewed: Token) {
    c in s.calls &&
    if resumed then (s.calls[c].Retrying? || s.calls[c].Finished?) && TokensSent(s, c) == [first, Some(renewed)]
    else s.calls[c] == Waiting(t) && TokensSent(s, c) == [first]
  }

  lemma GrantedStep(s: State, e: Event, c: nat, t: nat, resumed: bool, first: Option<Token>, renewed: Token)
    requires WaitingOrSent(s, c, t, resumed, first, renewed)
    requires t in s.results && s.results[t] == Some(renewed) && renewed != ""
    ensures WaitingOrSent(Next(s, e), c, t, resumed || e == Resume(c), first, renewed)
  {
    hide Next;
    if resumed {
      SentAgainStays(s, e, c);
    } else if e == Resume(c) {
      ResumedOnce(s, c);
    } else {
      WaitingStep(s, e, c);
    }
  }

  ghost predicate ResumesBetween(events: seq<Event>, c: nat, m: nat, n: nat)
    requires n <= |events|
  {
    exists k :: m < k < n && events[k] == Resume(c)
  }

  /** After the grant a call waits until it resumes, and is then sent again with the granted token. */
  lemma {:induction false} AfterGrant(start: State, events: seq<Event>, c: nat, i: nat, j: nat, m: nat, renewed: Token, n: nat)
    requires Unbegun(start) && Denied(start, events, c, i, j) && j < m < n <= |events| && renewed != ""
    requires At(start, events, j + 1).refreshing.Some?
    requires GrantedAt(start, events, At(start, events, j + 1).refreshing.value, m, renewed)
    ensures WaitingOrSent(At(start, events, n), c, At(start, events, j + 1).refreshing.value,
                          ResumesBetween(events, c, m, n), At(start, events, i).access, renewed)
  {
    hide At;
    hide Denied;
    hide Unbegun;
    var t := At(start, events, j + 1).refreshing.value;
    UnbegunIsSingle(start);
    assert i < j by { DeniedOrder(start, events, c, i, j); }
    GrantSettles(start, events, t, m, renewed);
    if n == m + 1 {
      StillWaiting(start, events, c, i, j, m, m);
      assert !ResumesBetween(events, c, m, n);
    } else {
      AfterGrant(start, events, c, i, j, m, renewed, n - 1);
      AtNext(start, events, n - 1);
      ResultsLast(start, events, t, m + 1, n - 1);
      var resumed, first := ResumesBetween(events, c, m, n - 1), At(start, events, i).access;
      GrantedStep(At(start, events, n - 1), events[n - 1], c, t, resumed, first, renewed);
      assert ResumesBetween(events, c, m, n) == (resumed || events[n - 1] == Resume(c));
    }
  }

  lemma DeniedOrder(start: State, events: seq<Event>, c: nat, i: nat, j: nat)
    requires Denied(start, events, c, i, j)
    ensures i < j < |events|
  {
  }

  lemma UnbegunIsSingle(s: State)
    requires Unbegun(s)
    ensures SingleFlight(s)
  {
  }

  lemma ResumedOnce(s: State, c: nat)
    requires c in s.calls && s.calls[c].Waiting? && s.calls[c].task in s.results
    requires s.results[s.calls[c].task].GetOr("") != ""
    ensures var renewed := s.results[s.calls[c].task];
            && c in Next(s, Resume(c)).calls && Next(s, Resume(c)).calls[c].Retrying?
            && TokensSent(Next(s, Resume(c)), c) == TokensSent(s, c) + [renewed]
  {
  }

  // The other way round: what a second request tells about the events before it.

  lemma DeniedLater(start: State, events: seq<Event>, more: Event, c: nat, i: nat, j: nat)
    requires Denied(start, events, c, i, j)
    ensures Denied(start, events + [more], c, i, j)
    ensures At(start, events + [more], j + 1) == At(start, events, j + 1)
  {
    var all := events + [more];
    assert all[..i] == events[..i] && all[..j + 1] == events[..j + 1];
    assert forall h :: 0 <= h < |events| ==> all[h] == events[h];
  }

  lemma GrantedLater(start: State, events: seq<Event>, more: Event, t: nat, m: nat, renewed: Token)
    requires GrantedAt(start, events, t, m, renewed)
    ensures GrantedAt(start, events + [more], t, m, renewed)
  {
    assert (events + [more])[..m] == events[..m];
  }

  /** A call that has not been answered yet. */
  lemma {:induction false} FirstFrom(start: State, events: seq<Event>, c: nat) returns (i: nat)
    requires Unbegun(start) && c in Run(start, events).calls && Run(start, events).calls[c].First?
    ensures BeginsAt(events, c, i) && forall h :: i < h < |events| ==> !IsFirstReply(events[h], c)
  {
    var n := |events| - 1;
    assert events == events[..n] + [events[n]];
    var s := Run(start, events[..n]);
    if c in s.calls {
      if !s.calls[c].First? {
        NeverFirstAgain(s, events[n], c);
      }
      i := FirstFrom(start, events[..n], c);
      if IsFirstReply(events[n], c) {
        AnsweredIsNotFirst(s, events[n], c);
      }
      assert forall h :: 0 <= h < n ==> events[..n][h] == events[h];
    } else {
      i := n;
      BegunNow(s, events[n], c);
      NoneBegan(start, events[..n], c);
      assert forall h :: 0 <= h < n ==> events[..n][h] == events[h];
    }
  }

  lemma NeverFirstAgain(s: State, e: Event, c: nat)
    requires c in s.calls && !s.calls[c].First?
    ensures c in Next(s, e).calls && !Next(s, e).calls[c].First?
  {
    if !About(e, c) {
      OtherCallsStay(s, e, c);
    }
  }

  lemma AnsweredIsNotFirst(s: State, e: Event, c: nat)
    requires c in s.calls && IsFirstReply(e, c)
    ensures c in Next(s, e).calls && !Next(s, e).calls[c].First?
  {
  }

  lemma BegunNow(s: State, e: Event, c: nat)
    requires c !in s.calls && c in Next(s, e).calls
    ensures IsBegin(e, c)
  {
  }

  lemma {:induction false} NoneBegan(start: State, events: seq<Event>, c: nat)
    requires c !in Run(start, events).calls
    ensures forall h :: 0 <= h < |events| ==> !IsBegin(events[h], c)
  {
    if events != [] {
      var n := |events| - 1;
      StaysBegun(Run(start, events[..n]), events[n], c);
      NoneBegan(start, events[..n], c);
      assert forall h :: 0 <= h < n ==> events[..n][h] == events[h];
    }
  }

  lemma StaysBegun(s: State, e: Event, c: nat)
    requires c !in Next(s, e).calls
    ensures c !in s.calls && !IsBegin(e, c)
  {
  }

  lemma WaitsFrom(s: State, e: Event, c: nat)
    requires c in Next(s, e).calls && Next(s, e).calls[c].Waiting? && !(c in s.calls && s.calls[c] == Next(s, e).calls[c])
    ensures c in s.calls && s.calls[c].First? && IsFirstReply(e, c) && e.unauthorized
    ensures s.calls[c].own && s.calls[c].token.GetOr("") != ""
    ensures Next(s, e).refreshing == Some(Next(s, e).calls[c].task)
  {
  }

  /** A waiting call was denied, and waits on the refresh in flight after that. */
  lemma {:induction false} WaitingFrom(start: State, events: seq<Event>, c: nat) returns (i: nat, j: nat)
    requires Unbegun(start) && c in Run(start, events).calls && Run(start, events).calls[c].Waiting?
    ensures Denied(start, events, c, i, j)
    ensures At(start, events, j + 1).refreshing == Some(Run(start, events).calls[c].task)
  {
    hide Next;
    var n := |events| - 1;
    var before, e := events[..n], events[n];
    assert events == before + [e];
    var s := Run(start, before);
    if c in s.calls && s.calls[c] == Run(start, events).calls[c] {
      i, j := WaitingFrom(start, before, c);
      DeniedLater(start, before, e, c, i, j);
    } else {
      WaitsFrom(s, e, c);
      i := FirstFrom(start, before, c);
      j := n;
      StillFirst(start, before, c, i, n);
      assert before[..n] == before && before[..i] == events[..i] && events[..n + 1] == events;
      assert forall h :: 0 <= h < n ==> before[h] == events[h];
    }
  }

  /** A result with a token comes from a grant. */
  lemma {:induction false} ResultFrom(start: State, events: seq<Event>, t: nat) returns (m: nat)
    requires Unbegun(start) && t in Run(start, events).results && Run(start, events).results[t].Some?
    ensures GrantedAt(start, events, t, m, Run(start, events).results[t].value)
  {
    var n := |events| - 1;
    var before, e := events[..n], events[n];
    assert events == before + [e];
    var s := Run(start, before);
    assert before[..n] == before;
    FlightAt(start, before, n);
    if t in s.results {
      ResultsStay(s, e, t);
      m := ResultFrom(start, before, t);
      GrantedLater(start, before, e, t, m, s.results[t].value);
    } else {
      m := n;
      SettledNow(s, e, t);
    }
  }

  lemma SettledNow(s: State, e: Event, t: nat)
    requires SingleFlight(s) && t !in s.results && t in Next(s, e).results && Next(s, e).results[t].Some?
    ensures e.ExchangeReply? && e.task == t && e.reply.Granted? && Next(s, e).results[t] == Some(e.reply.access)
    ensures s.refreshing == Some(t) && t in s.tasks && s.tasks[t].Exchanging?
  {
  }

  lemma SecondSend(s: State, e: Event, c: nat)
    requires SendsBounded(s) && SendsOf(s, c) != 2 && SendsOf(Next(s, e), c) == 2
    ensures e == Resume(c) && c in s.calls && s.calls[c].Waiting? && s.calls[c].task in s.results
    ensures s.results[s.calls[c].task].GetOr("") != ""
  {
  }

  /** The refresh a call waits on settles after the call was denied. */
  lemma GrantAfterDenial(start: State, events: seq<Event>, c: nat, i: nat, j: nat, m: nat, t: nat, renewed: Token)
    requires Unbegun(start) && Denied(start, events, c, i, j) && GrantedAt(start, events, t, m, renewed)
    requires At(start, events, j + 1).refreshing == Some(t)
    ensures j < m
  {
    if m <= j {
      GrantSettles(start, events, t, m, renewed);
      ResultsLast(start, events, t, m + 1, j + 1);
      FlightAt(start, events, j + 1);
    }
  }

  lemma {:induction false} SentTwiceFrom(start: State, events: seq<Event>, c: nat)
    returns (i: nat, j: nat, m: nat, k: nat, renewed: Token)
    requires Unbegun(start) && SendsBounded(start) && SendsOf(Run(start, events), c) == 2
    ensures Renewed(start, events, c, i, j, m, k, renewed)
  {
    hide SendsBounded;
    var n := |events| - 1;
    assert SendsOf(start, c) == 0;
    var before, e := events[..n], events[n];
    assert events == before + [e];
    var s := Run(start, before);
    if SendsOf(s, c) == 2 {
      i, j, m, k, renewed := SentTwiceFrom(start, before, c);
      DeniedLater(start, before, e, c, i, j);
      GrantedLater(start, before, e, At(start, before, j + 1).refreshing.value, m, renewed);
    } else {
      RunSendsBounded(start, before);
      SecondSend(s, e, c);
      var t := s.calls[c].task;
      i, j := WaitingFrom(start, before, c);
      m := ResultFrom(start, before, t);
      renewed := s.results[t].value;
      k := n;
      GrantAfterDenial(start, before, c, i, j, m, t, renewed);
      DeniedLater(start, before, e, c, i, j);
      GrantedLater(start, before, e, t, m, renewed);
    }
  }

  lemma {:induction false} RunSendsBounded(start: State, events: seq<Event>)
    requires SendsBounded(start)
    ensures SendsBounded(Run(start, events))
  {
    hide SendsBounded;
    if events != [] {
      RunSendsBounded(start, events[..|events| - 1]);
      SendStep(Run(start, events[..|events| - 1]), events[|events| - 1]);
    }
  }

  lemma SignedInIsUnbegun(access: Option<Token>, refresh: Option<Token>)
    ensures Unbegun(SignedIn(access, refresh)) && SendsBounded(SignedIn(access, refresh))
  {
  }

  /**
   * A call is sent a second time exactly when its first request carried the
   * session's own token and met a 401, the refresh in flight right after that
   * was then granted a token, and the call resumed.
   */
  lemma SentAgainIff(access: Option<Token>, refresh: Option<Token>, events: seq<Event>, c: nat)
    ensures var start := SignedIn(access, refresh);
            SendsOf(Run(start, events), c) == 2
            <==> exists i, j, m, k, renewed :: Renewed(start, events, c, i, j, m, k, renewed)
  {
    hide Run;
    hide SendsBounded;
    hide Renewed;
    var start := SignedIn(access, refresh);
    SignedInIsUnbegun(access, refresh);
    if SendsOf(Run(start, events), c) == 2 {
      var i, j, m, k, renewed := SentTwiceFrom(start, events, c);
    }
    if i, j, m, k, renewed :| Renewed(start, events, c, i, j, m, k, renewed) {
      RenewedToken(access, refresh, events, c, i, j, m, k, renewed);
    }
  }

  /** The first request carried the stored token, the second the one the call's refresh was granted. */
  lemma RenewedToken(access: Option<Token>, refresh: Option<Token>, events: seq<Event>, c: nat, i: nat, j: nat, m: nat, k: nat, renewed: Token)
    requires Renewed(SignedIn(access, refresh), events, c, i, j, m, k, renewed)
    ensures TokensSent(Run(SignedIn(access, refresh), events), c)
         == [At(SignedIn(access, refresh), events, i).access, Some(renewed)]
  {
    hide SendsBounded;
    SignedInIsUnbegun(access, refresh);
    AfterGrant(SignedIn(access, refresh), events, c, i, j, m, renewed, |events|);
    assert ResumesBetween(events, c, m, |events|);
    assert events[..|events|] == events;
  }

  /** What a whole refresh takes, from the 401 on. */
  function RefreshScript(c: nat, t: nat, access: Token, refresh: Token): seq<Event> {
    [FirstReply(c, true), ReadStored(t), ExchangeReply(t, Granted(access, refresh)), Resume(c)]
  }

  /**
   * And it goes through: from every state with one refresh at most, a call
   * denied on the session's own token, with a refresh token stored, is sent
   * again with the access token granted, and the new pair is stored, whether it
   * joins a refresh or starts one.
   */
  lemma RefreshGoesThrough(s: State, c: nat, access: Token, refresh: Token)
    requires SingleFlight(s) && c in s.calls && s.calls[c].First? && s.calls[c].own
    requires s.calls[c].token.GetOr("") != "" && s.refresh.GetOr("") != "" && access != ""
    ensures var t := if s.refreshing.Some? then s.refreshing.value else s.started;
            var u := Run(s, RefreshScript(c, t, access, refresh));
            && TokensSent(u, c) == TokensSent(s, c) + [Some(access)]
            && u.access == Some(access) && u.refresh == Some(refresh) && u.refreshing == None
  {
    hide Settle;
    hide Next;
    var t := if s.refreshing.Some? then s.refreshing.value else s.started;
    var script := RefreshScript(c, t, access, refresh);
    var s1 := Next(s, FirstReply(c, true));
    var s3 := Next(Next(s1, ReadStored(t)), ExchangeReply(t, Granted(access, refresh)));
    DeniedJoins(s, c);
    GrantGoesThrough(s1, t, access, refresh);
    ResumedOnce(s3, c);
    ResumingKeepsTokens(s3, c);
    FourSteps(s, script);
  }

  lemma DeniedJoins(s: State, c: nat)
    requires SingleFlight(s) && c in s.calls && s.calls[c].First? && s.calls[c].own && s.calls[c].token.GetOr("") != ""
    ensures var t, u := if s.refreshing.Some? then s.refreshing.value else s.started, Next(s, FirstReply(c, true));
            && SingleFlight(u) && u.refreshing == Some(t) && c in u.calls && u.calls[c] == Waiting(t)
            && u.sent == s.sent && u.access == s.access && u.refresh == s.refresh
  {
    JoinIsSingle(s, c);
  }

  lemma GrantGoesThrough(s: State, t: nat, access: Token, refresh: Token)
    requires SingleFlight(s) && s.refreshing == Some(t) && s.refresh.GetOr("") != ""
    ensures var u := Next(Next(s, ReadStored(t)), ExchangeReply(t, Granted(access, refresh)));
            && u.access == Some(access) && u.refresh == Some(refresh) && u.refreshing == None
            && t in u.results && u.results[t] == Some(access) && u.calls == s.calls && u.sent == s.sent
  {
    var read := Next(s, ReadStored(t));
    assert t in read.tasks && read.tasks[t].Exchanging?;
  }

  lemma ResumingKeepsTokens(s: State, c: nat)
    ensures var u := Next(s, Resume(c));
            u.access == s.access && u.refresh == s.refresh && u.refreshing == s.refreshing
  {
  }

  lemma FourSteps(s: State, script: seq<Event>)
    requires |script| == 4
    ensures Run(s, script) == Next(Next(Next(Next(s, script[0]), script[1]), script[2]), script[3])
  {
    hide Next;
    assert script[..3][..2] == script[..2] && script[..2][..1] == script[..1] && script[..1][..0] == [];
    assert Run(s, script[..1]) == Next(s, script[0]);
    assert Run(s, script[..2]) == Next(Run(s, script[..1]), script[1]);
    assert Run(s, script[..3]) == Next(Run(s, script[..2]), script[2]);
  }

  lemma ChainStep(s: State, initial: Option<Token>, e: Event)
    requires SingleFlight(s) && Chained(s, initial)
    ensures Chained(Next(s, e), initial)
  {
    hide Settle;
    match e
    case Begin(_, _) =>
    case FirstReply(c, _) => ChainJoin(s, initial, c);
    case ReadStored(t) =>
      if t in s.tasks {
        ChainSettle(s, initial, t);
      }
    case ExchangeReply(t, reply) =>
      if t in s.tasks && s.tasks[t].Exchanging? {
        ChainExchange(s, initial, t, reply);
      }
    case Resume(_) =>
    case SecondReply(_) =>
  }

  lemma ChainJoin(s: State, initial: Option<Token>, c: nat)
    requires Chained(s, initial)
    ensures Chained(Join(s, c), initial)
  {
  }

  lemma ChainSettle(s: State, initial: Option<Token>, t: nat)
    requires SingleFlight(s) && Chained(s, initial) && t in s.tasks
    ensures Chained(Settle(s, t, None), initial)
  {
  }

  lemma ChainExchange(s: State, initial: Option<Token>, t: nat, reply: RefreshReply)
    requires SingleFlight(s) && Chained(s, initial) && t in s.tasks && s.tasks[t].Exchanging?
    ensures Chained(Next(s, ExchangeReply(t, reply)), initial)
  {
    var next := Next(s, ExchangeReply(t, reply));
    assert next.tasks == s.tasks - {t} && forall u :: u !in next.tasks;
    match reply
    case Granted(access, refresh) =>
      ChainGrows(s, initial, t, Exchange(s.tasks[t].sent, access, refresh, true));
    case Lost(access, refresh) =>
      ChainGrows(s, initial, t, Exchange(s.tasks[t].sent, access, refresh, false));
    case Unauthorized =>
    case Refused =>
  }

  lemma ChainGrows(s: State, initial: Option<Token>, t: nat, x: Exchange)
    requires Chained(s, initial) && t in s.tasks && s.tasks[t].Exchanging? && x.sent == s.tasks[t].sent
    ensures var xs := s.exchanges + [x];
            && (forall i :: 0 <= i < |xs| ==> Held(xs[..i], initial) == Some(xs[i].sent))
            && Held(xs, initial) == if x.seen then Some(x.refresh) else s.refresh
  {
    var xs, n := s.exchanges + [x], |s.exchanges|;
    assert xs[..n] == s.exchanges;
    forall i | 0 <= i < |xs| ensures Held(xs[..i], initial) == Some(xs[i].sent) {
      if i < n {
        assert xs[..i] == s.exchanges[..i];
      }
    }
  }

  /** Granted refreshes form a chain: each sends the token issued by the last one whose answer arrived. */
  lemma {:induction false} ExchangesFormAChain(access: Option<Token>, refresh: Option<Token>, events: seq<Event>)
    ensures Chained(Run(SignedIn(access, refresh), events), refresh)
  {
    if events != [] {
      var init := events[..|events| - 1];
      ExchangesFormAChain(access, refresh, init);
      RunIsSingleFlight(access, refresh, init);
      ChainStep(Run(SignedIn(access, refresh), init), refresh, events[|events| - 1]);
    }
  }

  /** The server never issues a refresh token twice, nor the one the session started with. */
  ghost predicate FreshlyIssued(exchanges: seq<Exchange>, initial: Option<Token>) {
    && (forall i, j :: 0 <= i < j < |exchanges| ==> exchanges[i].refresh != exchanges[j].refresh)
    && (forall i :: 0 <= i < |exchanges| ==> initial != Some(exchanges[i].refresh))
  }

  lemma {:induction false} HeldThroughLosses(xs: seq<Exchange>, initial: Option<Token>, i: nat, j: nat)
    requires i <= j <= |xs| && forall k :: i <= k < j ==> !xs[k].seen
    ensures Held(xs[..j], initial) == Held(xs[..i], initial)
  {
    if i < j {
      HeldThroughLosses(xs, initial, i, j - 1);
      assert xs[..j][..j - 1] == xs[..j - 1];
    }
  }

  /** The grant the held token was issued by, or -1 for the token the session started with. */
  lemma {:induction false} HeldFrom(xs: seq<Exchange>, initial: Option<Token>, n: nat) returns (k: int)
    requires n <= |xs|
    ensures -1 <= k < n
    ensures Held(xs[..n], initial) == if k == -1 then initial else Some(xs[k].refresh)
    ensures k >= 0 ==> xs[k].seen
    ensures forall m :: k < m < n ==> !xs[m].seen
  {
    if n == 0 {
      k := -1;
    } else if xs[n - 1].seen {
      k := n - 1;
    } else {
      assert xs[..n][..n - 1] == xs[..n - 1];
      k := HeldFrom(xs, initial, n - 1);
    }
  }

  /**
   * With freshly issued tokens two grants are for the same refresh token
   * exactly when the answers of the first and of all grants between them were
   * lost: the client then presents the token it still holds again.
   */
  lemma GrantedAgainIff(access: Option<Token>, refresh: Option<Token>, events: seq<Event>, i: nat, j: nat)
    requires FreshlyIssued(Run(SignedIn(access, refresh), events).exchanges, refresh)
    requires i < j < |Run(SignedIn(access, refresh), events).exchanges|
    ensures var xs := Run(SignedIn(access, refresh), events).exchanges;
            xs[i].sent == xs[j].sent <==> forall k :: i <= k < j ==> !xs[k].seen
  {
    hide Run;
    ExchangesFormAChain(access, refresh, events);
    var xs := Run(SignedIn(access, refresh), events).exchanges;
    assert Held(xs[..i], refresh) == Some(xs[i].sent) && Held(xs[..j], refresh) == Some(xs[j].sent);
    if forall k :: i <= k < j ==> !xs[k].seen {
      HeldThroughLosses(xs, refresh, i, j);
    } else {
      var m := HeldFrom(xs, refresh, i);
      var k := HeldFrom(xs, refresh, j);
      assert k >= i && xs[k].refresh == xs[j].sent;
      if m >= 0 {
        assert xs[m].refresh != xs[k].refresh;
      }
    }
  }

  /** In particular no refresh token is exchanged twice with both answers arriving. */
  lemma NoTokenExchangedTwice(access: Option<Token>, refresh: Option<Token>, events: seq<Event>)
    requires FreshlyIssued(Run(SignedIn(access, refresh), events).exchanges, refresh)
    ensures var xs := Run(SignedIn(access, refresh), events).exchanges;
            forall i, j :: 0 <= i < j < |xs| && xs[i].seen ==> xs[i].sent != xs[j].sent
  {
    hide Run;
    var xs := Run(SignedIn(access, refresh), events).exchanges;
    forall i, j | 0 <= i < j < |xs| && xs[i].seen ensures xs[i].sent != xs[j].sent {
      GrantedAgainIff(access, refresh, events, i, j);
    }
  }
}
