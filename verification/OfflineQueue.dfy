/**
 * The customer app's offline queue: requests are drained first in, first out,
 * the head is retried on later drains, enqueues may come in at any await, and
 * the app may be killed before the outcome of a call is persisted.
 */
module OfflineQueue {
  import opened Basics

  datatype Method = POST | PATCH | PUT | DELETE
  datatype Request = Request(id: string, verb: Method, path: string, body: Json, enqueuedAt: int, retries: nat)

  /**
   * One call to the API on behalf of a request: whether the app saw it
   * succeed, whether the server applied it, and whether the app lived to
   * persist the outcome. An answer may be lost.
   */
  datatype Attempt = Attempt(id: string, ok: bool, applied: bool, kept: bool)

  const MAX_RETRIES := 5

  /** The in-memory queue and the calls made so far. */
  datatype State = State(queue: seq<Request>, calls: seq<Attempt>)

  function Fresh(r: Request): Request {
    r.(retries := 0)
  }

  function Push(s: State, r: Request): State {
    s.(queue := s.queue + [Fresh(r)])
  }

  function PushAll(s: State, rs: seq<Request>): State {
    if rs == [] then s else Push(PushAll(s, rs[..|rs| - 1]), rs[|rs| - 1])
  }

  predicate Stuck(r: Request, ok: bool) {
    !ok && r.retries + 1 <= MAX_RETRIES
  }

  function Call(id: string, ok: bool, applied: bool): Attempt {
    Attempt(id, ok, ok || applied, true)
  }

  function Cut(id: string, ok: bool, applied: bool): Attempt {
    Attempt(id, ok, ok || applied, false)
  }

  /** One call for the head: shifted when acknowledged or out of retries, else its retries go up. */
  function TryHead(s: State, ok: bool, applied: bool): State
    requires s.queue != []
  {
    var head := s.queue[0];
    State(
      if Stuck(head, ok) then s.queue[0 := head.(retries := head.retries + 1)] else s.queue[1..],
      s.calls + [Call(head.id, ok, applied)])
  }

  /** One call for the head cut short: the app starts again with the queue as it was persisted before the outcome. */
  function KillHead(s: State, ok: bool, applied: bool): State
    requires s.queue != []
  {
    s.(calls := s.calls + [Cut(s.queue[0].id, ok, applied)])
  }

  /**
   * One loop round: enqueues during the call, its outcome, whether the app is
   * killed before it persists that outcome, and enqueues afterwards.
   */
  datatype Round = Round(during: seq<Request>, ok: bool, applied: bool, killed: bool, afterwards: seq<Request>)

  function Try(s: State, r: Round): State
    requires s.queue != []
  {
    if r.killed then KillHead(s, r.ok, r.applied) else TryHead(s, r.ok, r.applied)
  }

  /** The round ends the drain. */
  predicate Ends(head: Request, r: Round) {
    r.killed || Stuck(head, r.ok)
  }

  function DrainFrom(s: State, rounds: seq<Round>): State
    decreases |rounds|
  {
    if s.queue == [] || rounds == [] then s
    else
      var r := rounds[0];
      var called := PushAll(s, r.during);
      assert called.queue != [] by { PushAllKeeps(s, r.during); }
      var next := PushAll(Try(called, r), r.afterwards);
      if Ends(s.queue[0], r) then next else DrainFrom(next, rounds[1..])
  }

  lemma {:induction false} PushAllKeeps(s: State, rs: seq<Request>)
    ensures s.queue <= PushAll(s, rs).queue && |PushAll(s, rs).queue| == |s.queue| + |rs|
    ensures PushAll(s, rs).calls == s.calls
  {
    if rs != [] {
      PushAllKeeps(s, rs[..|rs| - 1]);
    }
  }

  lemma DrainRound(s: State, rounds: seq<Round>, i: nat)
    requires s.queue != [] && i < |rounds|
    ensures var r, called := rounds[i], PushAll(s, rounds[i].during);
            && called.queue != [] && called.queue[0] == s.queue[0] && called.calls == s.calls
            && DrainFrom(s, rounds[i..]) ==
               var next := PushAll(Try(called, r), r.afterwards);
               if Ends(s.queue[0], r) then next else DrainFrom(next, rounds[i + 1..])
  {
    PushAllKeeps(s, rounds[i].during);
    assert rounds[i..][0] == rounds[i] && rounds[i..][1..] == rounds[i + 1..];
  }

  lemma DrainEnd(s: State, rounds: seq<Round>)
    requires s.queue == [] || rounds == []
    ensures DrainFrom(s, rounds) == s
  {
  }

  class Queue {
    var memoryQueue: seq<Request>
    var stored: seq<Request>
    var draining: bool
    var calls: seq<Attempt>

    ghost predicate Persisted()
      reads this
    {
      stored == memoryQueue
    }

    ghost function Abs(): State
      reads this
    {
      State(memoryQueue, calls)
    }

    constructor ()
      ensures Abs() == State([], []) && Persisted() && !draining
    {
      memoryQueue, stored, draining, calls := [], [], false, [];
    }

    method Persist()
      modifies `stored
      ensures Persisted()
    {
      stored := memoryQueue;
    }

    method Enqueue(r: Request)
      modifies `memoryQueue, `stored
      ensures Abs() == Push(old(Abs()), r) && Persisted()
      ensures memoryQueue == old(memoryQueue) + [r.(retries := 0)]
    {
      memoryQueue := memoryQueue + [r.(retries := 0)];
      Persist();
    }

    method EnqueueAll(rs: seq<Request>)
      requires Persisted()
      modifies `memoryQueue, `stored
      ensures Abs() == PushAll(old(Abs()), rs) && Persisted()
    {
      var i := 0;
      while i < |rs|
        invariant 0 <= i <= |rs|
        invariant Abs() == PushAll(old(Abs()), rs[..i]) && Persisted()
      {
        Enqueue(rs[i]);
        i := i + 1;
        assert rs[..i][..i - 1] == rs[..i - 1];
      }
      assert rs[..i] == rs;
    }

    /** The app is killed and starts again: memory is what was persisted. */
    method Restart()
      modifies `memoryQueue, `draining
      ensures Persisted() && memoryQueue == old(stored) && !draining
    {
      memoryQueue := stored;
      draining := false;
    }

    /**
     * The drain loop, observed for as many rounds as `rounds` describes. A
     * drain already running, or no connectivity, turns the call away.
     */
    method Drain(online: bool, rounds: seq<Round>)
      requires Persisted()
      modifies this
      ensures Persisted() && draining == old(draining)
      ensures Abs() == if old(draining) || !online then old(Abs()) else DrainFrom(old(Abs()), rounds)
    {
      hide DrainFrom;
      hide PushAll;
      if |memoryQueue| == 0 {
        DrainEnd(Abs(), rounds);
      }
      if draining || |memoryQueue| == 0 || !online {
        return;
      }
      draining := true;
      var i := 0;
      assert rounds[0..] == rounds;
      while |memoryQueue| > 0 && i < |rounds|
        invariant 0 <= i <= |rounds| && Persisted() && draining
        invariant DrainFrom(Abs(), rounds[i..]) == DrainFrom(old(Abs()), rounds)
        decreases |rounds| - i
      {
        DrainRound(Abs(), rounds, i);
        var next := memoryQueue[0];
        EnqueueAll(rounds[i].during);
        calls := calls + [Attempt(next.id, rounds[i].ok, rounds[i].ok || rounds[i].applied, !rounds[i].killed)];
        var again := true;
        if rounds[i].ok {
          memoryQueue := memoryQueue[1..];
        } else {
          memoryQueue := memoryQueue[0 := next.(retries := next.retries + 1)];
          if memoryQueue[0].retries > MAX_RETRIES {
            memoryQueue := memoryQueue[1..];
          } else {
            again := false;
          }
        }
        if rounds[i].killed {
          Restart();
          EnqueueAll(rounds[i].afterwards);
          return;
        }
        Persist();
        EnqueueAll(rounds[i].afterwards);
        if !again {
          draining := false;
          return;
        }
        i := i + 1;
      }
      DrainEnd(Abs(), rounds[i..]);
      draining := false;
    }
  }

  // ---------------------------------------------------------------- whole runs

  /** `Killed`: the app is killed during the head's call, or after it with the outcome not yet persisted. */
  datatype Event = Enqueued(request: Request) | Called(ok: bool, applied: bool) | Killed(ok: bool, applied: bool)

  function Next(s: State, e: Event): State {
    match e
    case Enqueued(r) => Push(s, r)
    case Called(ok, applied) => if s.queue == [] then s else TryHead(s, ok, applied)
    case Killed(ok, applied) => if s.queue == [] then s else KillHead(s, ok, applied)
  }

  function Run(s: State, events: seq<Event>): State {
    if events == [] then s else Next(Run(s, events[..|events| - 1]), events[|events| - 1])
  }

  /** The requests enqueued, in order. */
  function Requests(events: seq<Event>): seq<Request> {
    if events == [] then []
    else
      var e := events[|events| - 1];
      Requests(events[..|events| - 1]) + if e.Enqueued? then [Fresh(e.request)] else []
  }

  ghost predicate DistinctIds(rs: seq<Request>) {
    forall i, j :: 0 <= i < j < |rs| ==> rs[i].id != rs[j].id
  }

  /** The calls with a persisted outcome of that kind. */
  function Count(calls: seq<Attempt>, id: string, ok: bool): nat {
    if calls == [] then 0
    else
      var last := calls[|calls| - 1];
      Count(calls[..|calls| - 1], id, ok) + if last.kept && last.id == id && last.ok == ok then 1 else 0
  }

  function Failures(s: State, id: string): nat {
    Count(s.calls, id, false)
  }

  function Successes(s: State, id: string): nat {
    Count(s.calls, id, true)
  }

  /** Acknowledged once after at most five failures, or dropped at the sixth failure. */
  predicate Finished(s: State, id: string) {
    || (Successes(s, id) == 1 && Failures(s, id) <= MAX_RETRIES)
    || (Successes(s, id) == 0 && Failures(s, id) == MAX_RETRIES + 1)
  }

  /** The queue is the unfinished rest of `all`, in order, and only its head has been tried. */
  ghost predicate FifoState(s: State, all: seq<Request>) {
    && |s.queue| <= |all|
    && var done := |all| - |s.queue|;
    && (forall i :: 0 <= i < |s.queue| ==> Fresh(s.queue[i]) == all[done + i])
    && (forall i :: 0 <= i < done ==> Finished(s, all[i].id))
    && (forall i :: 0 <= i < |s.queue| ==>
          Successes(s, s.queue[i].id) == 0 && Failures(s, s.queue[i].id) == s.queue[i].retries <= MAX_RETRIES)
    && (forall i :: 1 <= i < |s.queue| ==> s.queue[i].retries == 0)
    && (forall a :: a in s.calls ==> exists i :: 0 <= i < |all| && all[i].id == a.id)
  }

  lemma {:induction false} NeverCalled(calls: seq<Attempt>, id: string)
    requires forall a :: a in calls ==> a.id != id
    ensures Count(calls, id, true) == 0 && Count(calls, id, false) == 0
  {
    if calls != [] {
      assert calls[|calls| - 1] in calls;
      NeverCalled(calls[..|calls| - 1], id);
    }
  }

  lemma CountSnoc(calls: seq<Attempt>, c: Attempt, id: string, ok: bool)
    ensures Count(calls + [c], id, ok) == Count(calls, id, ok) + if c.kept && c.id == id && c.ok == ok then 1 else 0
  {
    assert (calls + [c])[..|calls|] == calls;
  }

  lemma PushStep(s: State, r: Request, all: seq<Request>)
    requires FifoState(s, all) && DistinctIds(all + [Fresh(r)])
    ensures FifoState(Push(s, r), all + [Fresh(r)])
  {
    var t, more := Push(s, r), all + [Fresh(r)];
    hide Count;
    hide Finished;
    forall a | a in s.calls ensures a.id != r.id && exists i :: 0 <= i < |more| && more[i].id == a.id {
      var i :| 0 <= i < |all| && all[i].id == a.id;
      assert more[i].id == a.id && more[|all|].id == r.id;
    }
    NeverCalled(s.calls, r.id);
    var done := |all| - |s.queue|;
    forall i | 0 <= i < done ensures Finished(t, more[i].id) {
      assert more[i] == all[i];
      SameCalls(s, t, all[i].id);
    }
  }

  lemma SameCalls(s: State, t: State, id: string)
    requires s.calls == t.calls
    ensures Finished(s, id) == Finished(t, id)
  {
  }

  lemma CallCounts(s: State, ok: bool, applied: bool, id: string)
    requires s.queue != []
    ensures Successes(TryHead(s, ok, applied), id) == Successes(s, id) + if ok && s.queue[0].id == id then 1 else 0
    ensures Failures(TryHead(s, ok, applied), id) == Failures(s, id) + if !ok && s.queue[0].id == id then 1 else 0
  {
    CountSnoc(s.calls, Call(s.queue[0].id, ok, applied), id, true);
    CountSnoc(s.calls, Call(s.queue[0].id, ok, applied), id, false);
  }

  lemma CallStep(s: State, ok: bool, applied: bool, all: seq<Request>)
    requires FifoState(s, all) && DistinctIds(all) && s.queue != []
    ensures FifoState(TryHead(s, ok, applied), all)
  {
    hide Count;
    var t, done := TryHead(s, ok, applied), |all| - |s.queue|;
    var head := s.queue[0];
    assert Fresh(head) == all[done];
    forall i | 0 <= i < |all| && i != done
      ensures Successes(t, all[i].id) == Successes(s, all[i].id) && Failures(t, all[i].id) == Failures(s, all[i].id)
    {
      CallCounts(s, ok, applied, all[i].id);
    }
    CallCounts(s, ok, applied, head.id);
    forall i | 1 <= i < |s.queue|
      ensures Successes(t, s.queue[i].id) == 0 && Failures(t, s.queue[i].id) == 0
    {
      assert s.queue[i].id == all[done + i].id;
    }
    forall a | a in t.calls ensures exists i :: 0 <= i < |all| && all[i].id == a.id {
      if a !in s.calls {
        assert all[done].id == a.id;
      }
    }
    assert Finished(t, all[done].id) || Stuck(head, ok);
  }

  lemma CutCounts(s: State, ok: bool, applied: bool, id: string)
    requires s.queue != []
    ensures Successes(KillHead(s, ok, applied), id) == Successes(s, id)
    ensures Failures(KillHead(s, ok, applied), id) == Failures(s, id)
  {
    CountSnoc(s.calls, Cut(s.queue[0].id, ok, applied), id, true);
    CountSnoc(s.calls, Cut(s.queue[0].id, ok, applied), id, false);
  }

  /** A call cut short counts neither as a success nor as a failure. */
  lemma KillStep(s: State, ok: bool, applied: bool, all: seq<Request>)
    requires FifoState(s, all) && s.queue != []
    ensures FifoState(KillHead(s, ok, applied), all)
  {
    hide Count;
    var t, done := KillHead(s, ok, applied), |all| - |s.queue|;
    forall id ensures Successes(t, id) == Successes(s, id) && Failures(t, id) == Failures(s, id) {
      CutCounts(s, ok, applied, id);
    }
    assert Fresh(s.queue[0]) == all[done + 0];
    forall a | a in t.calls ensures exists i :: 0 <= i < |all| && all[i].id == a.id {
      if a !in s.calls {
        assert all[done].id == a.id;
      }
    }
  }

  /**
   * First in, first out, with bounded retries. At every moment of every run,
   * kills included, the requests enqueued are the finished ones followed by
   * the queue. Of the outcomes persisted, each finished one has exactly one
   * acknowledgement after at most five failures or was dropped at its sixth; a
   * waiting one has none, and only the head has failures behind it.
   */
  lemma {:induction false} QueueIsFifo(events: seq<Event>)
    requires DistinctIds(Requests(events))
    ensures FifoState(Run(State([], []), events), Requests(events))
  {
    hide Count;
    hide Finished;
    if events == [] {
    } else {
      var n := |events| - 1;
      var before, all := Run(State([], []), events[..n]), Requests(events[..n]);
      assert forall i :: 0 <= i < |all| ==> Requests(events)[i] == all[i];
      QueueIsFifo(events[..n]);
      match events[n]
      case Enqueued(r) => PushStep(before, r, all);
      case Called(ok, applied) =>
        assert Requests(events) == all;
        if before.queue != [] {
          CallStep(before, ok, applied, all);
        }
      case Killed(ok, applied) =>
        assert Requests(events) == all;
        if before.queue != [] {
          KillStep(before, ok, applied, all);
        }
    }
  }

  // ---------------------------------------------------------------- deliveries

  /** How often the server applied a request. */
  function Deliveries(calls: seq<Attempt>, id: string): nat {
    if calls == [] then 0
    else
      var last := calls[|calls| - 1];
      Deliveries(calls[..|calls| - 1], id) + if last.id == id && last.applied then 1 else 0
  }

  function Delivered(s: State, id: string): nat {
    Deliveries(s.calls, id)
  }

  lemma DeliveriesSnoc(calls: seq<Attempt>, c: Attempt, id: string)
    ensures Deliveries(calls + [c], id) == Deliveries(calls, id) + if c.id == id && c.applied then 1 else 0
  {
    assert (calls + [c])[..|calls|] == calls;
  }

  lemma CallDelivers(s: State, ok: bool, applied: bool, id: string)
    requires s.queue != []
    ensures Delivered(TryHead(s, ok, applied), id)
         == Delivered(s, id) + if s.queue[0].id == id && (ok || applied) then 1 else 0
  {
    DeliveriesSnoc(s.calls, Call(s.queue[0].id, ok, applied), id);
  }

  lemma CutDelivers(s: State, ok: bool, applied: bool, id: string)
    requires s.queue != []
    ensures Delivered(KillHead(s, ok, applied), id)
         == Delivered(s, id) + if s.queue[0].id == id && (ok || applied) then 1 else 0
  {
    DeliveriesSnoc(s.calls, Cut(s.queue[0].id, ok, applied), id);
  }

  /** How often the app saw a request acknowledged, whether or not it could persist that. */
  function Acks(calls: seq<Attempt>, id: string): nat {
    if calls == [] then 0
    else
      var last := calls[|calls| - 1];
      Acks(calls[..|calls| - 1], id) + if last.id == id && last.ok then 1 else 0
  }

  lemma AcksSnoc(calls: seq<Attempt>, c: Attempt, id: string)
    ensures Acks(calls + [c], id) == Acks(calls, id) + if c.id == id && c.ok then 1 else 0
  {
    assert (calls + [c])[..|calls|] == calls;
  }

  /** How often the app is killed with a call open or its outcome not persisted. */
  function Kills(events: seq<Event>): nat {
    if events == [] then 0
    else Kills(events[..|events| - 1]) + if events[|events| - 1].Killed? then 1 else 0
  }

  /** From any state on, deliveries and acknowledgements are bounded by persisted outcomes and kills. */
  lemma {:induction false} DeliveredByCalls(s: State, events: seq<Event>, id: string)
    ensures var t := Run(s, events);
            var outcomes := Successes(t, id) + Failures(t, id) - Successes(s, id) - Failures(s, id);
            && Successes(t, id) >= Successes(s, id) && outcomes >= 0
            && Delivered(t, id) - Delivered(s, id) <= outcomes + Kills(events)
            && Acks(t.calls, id) - Acks(s.calls, id) <= Successes(t, id) - Successes(s, id) + Kills(events)
  {
    hide Count;
    hide Deliveries;
    hide Acks;
    if events != [] {
      var n := |events| - 1;
      DeliveredByCalls(s, events[..n], id);
      OneMoreCall(Run(s, events[..n]), events[n], id);
    }
  }

  lemma OneMoreCall(s: State, e: Event, id: string)
    ensures var t := Next(s, e);
            var outcomes := Successes(t, id) + Failures(t, id) - Successes(s, id) - Failures(s, id);
            var kill := if e.Killed? then 1 else 0;
            && Successes(t, id) >= Successes(s, id) && outcomes >= 0
            && Delivered(t, id) - Delivered(s, id) <= outcomes + kill
            && Acks(t.calls, id) - Acks(s.calls, id) <= Successes(t, id) - Successes(s, id) + kill
  {
    hide Count;
    hide Deliveries;
    hide Acks;
    if s.queue != [] {
      match e
      case Enqueued(_) =>
      case Called(ok, applied) =>
        CallCounts(s, ok, applied, id);
        CallDelivers(s, ok, applied, id);
        AcksSnoc(s.calls, Call(s.queue[0].id, ok, applied), id);
      case Killed(ok, applied) =>
        CutCounts(s, ok, applied, id);
        CutDelivers(s, ok, applied, id);
        AcksSnoc(s.calls, Cut(s.queue[0].id, ok, applied), id);
    }
  }

  lemma CalledSixTimes(s: State, all: seq<Request>, i: nat)
    requires FifoState(s, all) && i < |all|
    ensures Successes(s, all[i].id) <= 1 && Successes(s, all[i].id) + Failures(s, all[i].id) <= MAX_RETRIES + 1
  {
    hide Count;
    var done := |all| - |s.queue|;
    if done <= i {
      assert Fresh(s.queue[i - done]) == all[done + (i - done)];
    }
  }

  /** No request is delivered more than six times and once more per kill, or acknowledged more than once and once more per kill. */
  lemma DeliveriesAreBounded(events: seq<Event>, i: nat)
    requires DistinctIds(Requests(events)) && i < |Requests(events)|
    ensures var s, id := Run(State([], []), events), Requests(events)[i].id;
            && Delivered(s, id) <= MAX_RETRIES + 1 + Kills(events)
            && Acks(s.calls, id) <= 1 + Kills(events)
  {
    hide Count;
    QueueIsFifo(events);
    CalledSixTimes(Run(State([], []), events), Requests(events), i);
    DeliveredByCalls(State([], []), events, Requests(events)[i].id);
  }

  /** `n` kills, each after the server applied the call and the app saw it acknowledged. */
  function CutShort(n: nat): seq<Event> {
    seq(n, _ => Killed(true, true))
  }

  /** A kill between the acknowledgement and the persist leaves the head waiting as it was: it is sent again. */
  lemma {:induction false} CutShortDelivers(s: State, n: nat)
    requires s.queue != []
    ensures var t, id := Run(s, CutShort(n)), s.queue[0].id;
            && t.queue == s.queue && Kills(CutShort(n)) == n
            && Delivered(t, id) == Delivered(s, id) + n && Acks(t.calls, id) == Acks(s.calls, id) + n
  {
    hide Deliveries;
    hide Acks;
    if n > 0 {
      assert CutShort(n)[..n - 1] == CutShort(n - 1);
      CutShortDelivers(s, n - 1);
      var t := Run(s, CutShort(n - 1));
      CutDelivers(t, true, true, s.queue[0].id);
      AcksSnoc(t.calls, Cut(t.queue[0].id, true, true), s.queue[0].id);
    }
  }

  /** `n` calls whose answers are lost after the server applied them. */
  function LostAnswers(n: nat): seq<Event> {
    seq(n, _ => Called(false, true))
  }

  lemma {:induction false} LostAnswersDeliver(s: State, n: nat)
    requires s.queue != [] && s.queue[0].retries + n <= MAX_RETRIES
    ensures var t, head := Run(s, LostAnswers(n)), s.queue[0];
            && t.queue == s.queue[0 := head.(retries := head.retries + n)]
            && Delivered(t, head.id) == Delivered(s, head.id) + n && Kills(LostAnswers(n)) == 0
  {
    hide Deliveries;
    if n > 0 {
      assert LostAnswers(n)[..n - 1] == LostAnswers(n - 1);
      LostAnswersDeliver(s, n - 1);
      CallDelivers(Run(s, LostAnswers(n - 1)), false, true, s.queue[0].id);
    }
  }

  /** One request, alone in the queue. */
  lemma OneWaiting(r: Request)
    ensures var s := Run(State([], []), [Enqueued(r)]);
            s.queue == [Fresh(r)] && Delivered(s, r.id) == 0 && Acks(s.calls, r.id) == 0
  {
    assert [Enqueued(r)][..0] == [] && [] + [Fresh(r)] == [Fresh(r)];
  }

  lemma {:induction false} KillsConcat(xs: seq<Event>, ys: seq<Event>)
    ensures Kills(xs + ys) == Kills(xs) + Kills(ys)
  {
    if ys == [] {
      assert xs + ys == xs;
    } else {
      var n := |ys| - 1;
      assert (xs + ys)[..|xs + ys| - 1] == xs + ys[..n];
      KillsConcat(xs, ys[..n]);
    }
  }

  lemma SixLostAnswers(s: State)
    requires s.queue != [] && s.queue[0].retries == 0
    ensures Delivered(Run(s, LostAnswers(MAX_RETRIES + 1)), s.queue[0].id) == Delivered(s, s.queue[0].id) + MAX_RETRIES + 1
    ensures Kills(LostAnswers(MAX_RETRIES + 1)) == 0
  {
    hide Deliveries;
    assert LostAnswers(MAX_RETRIES + 1)[..MAX_RETRIES] == LostAnswers(MAX_RETRIES);
    LostAnswersDeliver(s, MAX_RETRIES);
    CallDelivers(Run(s, LostAnswers(MAX_RETRIES)), false, true, s.queue[0].id);
  }

  /** Both bounds are reached, for every number of kills. */
  lemma BoundIsReached(r: Request, n: nat)
    ensures var events := [Enqueued(r)] + CutShort(n) + LostAnswers(MAX_RETRIES + 1);
            Kills(events) == n && Delivered(Run(State([], []), events), r.id) == MAX_RETRIES + 1 + n
    ensures var events := [Enqueued(r)] + CutShort(n) + [Called(true, true)];
            Kills(events) == n && Acks(Run(State([], []), events).calls, r.id) == 1 + n
  {
    hide Run;
    hide Deliveries;
    hide Acks;
    var start := [Enqueued(r)];
    var s := Run(State([], []), start);
    OneWaiting(r);
    CutShortDelivers(s, n);
    SixLostAnswers(Run(s, CutShort(n)));
    OneAck(Run(s, CutShort(n)));
    RunConcat(State([], []), start, CutShort(n));
    RunConcat(State([], []), start + CutShort(n), LostAnswers(MAX_RETRIES + 1));
    RunConcat(State([], []), start + CutShort(n), [Called(true, true)]);
    KillsConcat(start, CutShort(n));
    KillsConcat(start + CutShort(n), LostAnswers(MAX_RETRIES + 1));
    KillsConcat(start + CutShort(n), [Called(true, true)]);
    assert start[..0] == [] && [Called(true, true)][..0] == [];
  }

  lemma OneAck(s: State)
    requires s.queue != []
    ensures Acks(Run(s, [Called(true, true)]).calls, s.queue[0].id) == Acks(s.calls, s.queue[0].id) + 1
  {
    assert [Called(true, true)][..0] == [];
    AcksSnoc(s.calls, Call(s.queue[0].id, true, true), s.queue[0].id);
  }

  /** One lost answer, or one kill after the acknowledgement, and one good answer: delivered twice. */
  lemma DeliveredTwice(r: Request)
    ensures Delivered(Run(State([], []), [Enqueued(r), Called(false, true), Called(true, true)]), r.id) == 2
    ensures Delivered(Run(State([], []), [Enqueued(r), Killed(true, true), Called(true, true)]), r.id) == 2
  {
    hide Deliveries;
    var s := Run(State([], []), [Enqueued(r)]);
    var lost, cut := [Enqueued(r), Called(false, true), Called(true, true)], [Enqueued(r), Killed(true, true), Called(true, true)];
    OneWaiting(r);
    assert lost[..2] == [Enqueued(r), Called(false, true)] && cut[..2] == [Enqueued(r), Killed(true, true)];
    assert lost[..2][..1] == [Enqueued(r)] && cut[..2][..1] == [Enqueued(r)];
    CallDelivers(s, false, true, r.id);
    CallDelivers(TryHead(s, false, true), true, true, r.id);
    CutDelivers(s, true, true, r.id);
    CallDelivers(KillHead(s, true, true), true, true, r.id);
  }

  /** The server applied the call, and the queue does not know that the request is done. */
  predicate Unnoticed(e: Event) {
    (e.Called? && e.applied && !e.ok) || (e.Killed? && (e.applied || e.ok))
  }

  /** What the queue knows to be acknowledged is delivered, and when nothing goes unnoticed nothing else is. */
  lemma {:induction false} NothingUnnoticed(events: seq<Event>, id: string)
    requires forall e :: e in events ==> !Unnoticed(e)
    ensures Delivered(Run(State([], []), events), id) == Successes(Run(State([], []), events), id)
  {
    hide Count;
    hide Deliveries;
    if events == [] {
      NothingCalled(id);
    } else {
      var n := |events| - 1;
      assert !Unnoticed(events[n]) && forall e :: e in events[..n] ==> e in events;
      var s := Run(State([], []), events[..n]);
      NothingUnnoticed(events[..n], id);
      if s.queue != [] {
        match events[n]
        case Enqueued(_) =>
        case Called(ok, applied) =>
          CallCounts(s, ok, applied, id);
          CallDelivers(s, ok, applied, id);
        case Killed(ok, applied) =>
          CutCounts(s, ok, applied, id);
          CutDelivers(s, ok, applied, id);
      }
    }
  }

  lemma NothingCalled(id: string)
    ensures Delivered(State([], []), id) == 0 && Successes(State([], []), id) == 0
  {
  }

  /** Runs in which no answer is lost and no kill hides a delivery deliver every request at most once. */
  lemma AtMostOnceWithoutLoss(events: seq<Event>, i: nat)
    requires DistinctIds(Requests(events)) && i < |Requests(events)|
    requires forall e :: e in events ==> !Unnoticed(e)
    ensures Delivered(Run(State([], []), events), Requests(events)[i].id) <= 1
  {
    hide Count;
    hide Deliveries;
    QueueIsFifo(events);
    CalledSixTimes(Run(State([], []), events), Requests(events), i);
    NothingUnnoticed(events, Requests(events)[i].id);
  }

  /** `n` acknowledged calls. */
  function Acknowledged(n: nat): seq<Event> {
    seq(n, _ => Called(true, true))
  }

  /** Acknowledging what stands before a request brings it to the head, undelivered as it was. */
  lemma {:induction false} ReachAt(s: State, i: nat, n: nat)
    requires n <= i < |s.queue| && forall j :: 0 <= j < i ==> s.queue[j].id != s.queue[i].id
    ensures var t := Run(s, Acknowledged(n));
            t.queue == s.queue[n..] && Delivered(t, s.queue[i].id) == Delivered(s, s.queue[i].id)
  {
    hide Deliveries;
    if n > 0 {
      assert Acknowledged(n)[..n - 1] == Acknowledged(n - 1);
      ReachAt(s, i, n - 1);
      CallDelivers(Run(s, Acknowledged(n - 1)), true, true, s.queue[i].id);
    }
  }

  lemma {:induction false} RequestsConcat(xs: seq<Event>, ys: seq<Event>)
    ensures Requests(xs + ys) == Requests(xs) + Requests(ys)
  {
    if ys == [] {
      assert xs + ys == xs;
    } else {
      var n := |ys| - 1;
      assert (xs + ys)[..|xs + ys| - 1] == xs + ys[..n];
      RequestsConcat(xs, ys[..n]);
    }
  }

  lemma {:induction false} CallsRequestNothing(events: seq<Event>)
    requires forall e :: e in events ==> !e.Enqueued?
    ensures Requests(events) == []
  {
    if events != [] {
      CallsRequestNothing(events[..|events| - 1]);
      assert events[|events| - 1] in events;
    }
  }

  /** Two calls that the server applies, the head staying for the second unless it is already at its last try. */
  lemma TwoCallsDeliver(s: State)
    requires s.queue != [] && (Delivered(s, s.queue[0].id) > 0 || s.queue[0].retries < MAX_RETRIES)
    ensures Delivered(Run(s, [Called(true, true)]), s.queue[0].id) > 1
            || Delivered(Run(s, [Called(false, true), Called(true, true)]), s.queue[0].id) > 1
  {
    hide Deliveries;
    var one, two := [Called(true, true)], [Called(false, true), Called(true, true)];
    assert one[..0] == [] && two[..1] == [Called(false, true)] && two[..1][..0] == [];
    CallDelivers(s, true, true, s.queue[0].id);
    CallDelivers(s, false, true, s.queue[0].id);
    if s.queue[0].retries < MAX_RETRIES {
      var t := TryHead(s, false, true);
      assert t.queue[0].id == s.queue[0].id;
      CallDelivers(t, true, true, s.queue[0].id);
      assert Run(s, two[..1]) == t;
    }
  }

  /** The next call for a head at its last try removes it, so no later one delivers it again. */
  lemma LastTry(events: seq<Event>, more: seq<Event>)
    requires DistinctIds(Requests(events + more)) && Kills(more) == 0
    requires var s := Run(State([], []), events);
             s.queue != [] && s.queue[0].retries == MAX_RETRIES && Delivered(s, s.queue[0].id) == 0
    ensures var s := Run(State([], []), events);
            Delivered(Run(s, more), s.queue[0].id) <= 1
  {
    hide Count;
    hide Deliveries;
    var s := Run(State([], []), events);
    var all := Requests(events + more);
    RequestsConcat(events, more);
    RunConcat(State([], []), events, more);
    forall i, j | 0 <= i < j < |Requests(events)| ensures Requests(events)[i].id != Requests(events)[j].id {
      assert all[i].id != all[j].id;
    }
    QueueIsFifo(events);
    QueueIsFifo(events + more);
    var done := |Requests(events)| - |s.queue|;
    assert Fresh(s.queue[0]) == Requests(events)[done + 0] == all[done];
    CalledSixTimes(Run(State([], []), events + more), all, done);
    DeliveredByCalls(s, more, s.queue[0].id);
  }

  ghost predicate SafeWhileAlive(events: seq<Event>, id: string) {
    forall more :: DistinctIds(Requests(events + more)) && Kills(more) == 0
      ==> Delivered(Run(Run(State([], []), events), more), id) <= 1
  }

  ghost predicate SafeAlways(events: seq<Event>, id: string) {
    forall more :: DistinctIds(Requests(events + more)) ==> Delivered(Run(Run(State([], []), events), more), id) <= 1
  }

  /**
   * At-most-once delivery, exactly. In every reachable state a waiting request
   * is delivered at most once whatever comes, as long as the app is not killed
   * in a call, if and only if it is the head, was not delivered yet, and is at
   * its last try. With kills no waiting request is safe.
   */
  lemma AtMostOnceIff(events: seq<Event>, i: nat)
    requires DistinctIds(Requests(events)) && i < |Run(State([], []), events).queue|
    ensures var s := Run(State([], []), events);
            SafeWhileAlive(events, s.queue[i].id)
            <==> i == 0 && Delivered(s, s.queue[i].id) == 0 && s.queue[i].retries == MAX_RETRIES
    ensures !SafeAlways(events, Run(State([], []), events).queue[i].id)
  {
    hide Deliveries;
    hide Run;
    var s := Run(State([], []), events);
    if i == 0 && Delivered(s, s.queue[i].id) == 0 && s.queue[i].retries == MAX_RETRIES {
      forall more | DistinctIds(Requests(events + more)) && Kills(more) == 0
        ensures Delivered(Run(s, more), s.queue[i].id) <= 1
      {
        LastTry(events, more);
      }
    } else {
      var more := SecondDelivery(events, i);
      assert !SafeWhileAlive(events, s.queue[i].id);
    }
    var killed := KilledTwice(events, i);
  }

  lemma {:induction false} AckedKillsNothing(n: nat)
    ensures Kills(Acknowledged(n)) == 0
  {
    if n > 0 {
      assert Acknowledged(n)[..n - 1] == Acknowledged(n - 1);
      AckedKillsNothing(n - 1);
    }
  }

  lemma SecondDelivery(events: seq<Event>, i: nat) returns (more: seq<Event>)
    requires DistinctIds(Requests(events)) && i < |Run(State([], []), events).queue|
    requires var s := Run(State([], []), events);
             !(i == 0 && Delivered(s, s.queue[i].id) == 0 && s.queue[i].retries == MAX_RETRIES)
    ensures var s := Run(State([], []), events);
            DistinctIds(Requests(events + more)) && Kills(more) == 0 && Delivered(Run(s, more), s.queue[i].id) > 1
  {
    hide Deliveries;
    hide Count;
    hide Run;
    var s := Run(State([], []), events);
    QueueIsFifo(events);
    WaitingIds(s, Requests(events), i);
    ReachAt(s, i, i);
    var t := Run(s, Acknowledged(i));
    assert t.queue[0] == s.queue[i];
    TwoCallsDeliver(t);
    var one, two := [Called(true, true)], [Called(false, true), Called(true, true)];
    assert one[..0] == [] && two[..1] == [Called(false, true)] && two[..1][..0] == [];
    var last := if Delivered(Run(t, one), s.queue[i].id) > 1 then one else two;
    more := Acknowledged(i) + last;
    RunConcat(s, Acknowledged(i), last);
    AckedKillsNothing(i);
    KillsConcat(Acknowledged(i), last);
    CallsRequestNothing(more);
    RequestsConcat(events, more);
    assert Requests(events) + [] == Requests(events);
  }

  /** Brought to the head and cut short twice, a waiting request is delivered twice. */
  lemma KilledTwice(events: seq<Event>, i: nat) returns (more: seq<Event>)
    requires DistinctIds(Requests(events)) && i < |Run(State([], []), events).queue|
    ensures var s := Run(State([], []), events);
            DistinctIds(Requests(events + more)) && Delivered(Run(s, more), s.queue[i].id) > 1
  {
    hide Deliveries;
    hide Count;
    hide Run;
    var s := Run(State([], []), events);
    QueueIsFifo(events);
    WaitingIds(s, Requests(events), i);
    ReachAt(s, i, i);
    var t := Run(s, Acknowledged(i));
    assert t.queue[0] == s.queue[i];
    CutShortDelivers(t, 2);
    more := Acknowledged(i) + CutShort(2);
    RunConcat(s, Acknowledged(i), CutShort(2));
    CallsRequestNothing(more);
    RequestsConcat(events, more);
    assert Requests(events) + [] == Requests(events);
  }

  /** Waiting requests have distinct ids and, behind the head, no failures. */
  lemma WaitingIds(s: State, all: seq<Request>, i: nat)
    requires FifoState(s, all) && DistinctIds(all) && i < |s.queue|
    ensures forall j :: 0 <= j < i ==> s.queue[j].id != s.queue[i].id
    ensures s.queue[i].retries <= MAX_RETRIES && (i > 0 ==> s.queue[i].retries == 0)
  {
    hide Count;
    hide Finished;
    var done := |all| - |s.queue|;
    forall j | 0 <= j < i ensures s.queue[j].id != s.queue[i].id {
      assert Fresh(s.queue[j]) == all[done + j] && Fresh(s.queue[i]) == all[done + i];
    }
  }

  // ---------------------------------------------------------------- a drain is a run of atomic steps, and ends

  /** How many requests are enqueued during some rounds. */
  function Arrivals(rounds: seq<Round>): nat {
    if rounds == [] then 0 else |rounds[0].during| + |rounds[0].afterwards| + Arrivals(rounds[1..])
  }

  /**
   * The loop ends by itself: after as many rounds as there were requests and
   * arrivals nothing that could happen in further rounds matters.
   */
  lemma {:induction false} DrainEndsItself(s: State, rounds: seq<Round>, more: seq<Round>)
    requires |rounds| >= |s.queue| + Arrivals(rounds)
    ensures DrainFrom(s, rounds + more) == DrainFrom(s, rounds)
    decreases |rounds|
  {
    if s.queue != [] {
      var r := rounds[0];
      PushAllKeeps(s, r.during);
      var tried := Try(PushAll(s, r.during), r);
      PushAllKeeps(tried, r.afterwards);
      assert (rounds + more)[0] == r && (rounds + more)[1..] == rounds[1..] + more;
      if !Ends(s.queue[0], r) {
        DrainEndsItself(PushAll(tried, r.afterwards), rounds[1..], more);
      }
    }
  }

  /** The drain so far has stopped for a reason: its last call, for the head, was cut short or failed with tries left. */
  predicate StoppedForAReason(before: State, after: State) {
    after.queue != [] ==>
      && |before.calls| < |after.calls|
      && var last := after.calls[|after.calls| - 1];
      && last.id == after.queue[0].id
      && (!last.kept || (!last.ok && 1 <= after.queue[0].retries <= 5))
  }

  lemma OneRound(s: State, r: Round)
    requires s.queue != []
    ensures var called := PushAll(s, r.during);
            called.queue != [] &&
            var next := PushAll(Try(called, r), r.afterwards);
            && |next.calls| == |s.calls| + 1 && next.calls[..|s.calls|] == s.calls
            && next.calls[|s.calls|] == Attempt(s.queue[0].id, r.ok, r.ok || r.applied, !r.killed)
            && |next.queue| <= |s.queue| + |r.during| + |r.afterwards|
            && (r.ok && !r.killed
                ==> |next.queue| == |s.queue| - 1 + |r.during| + |r.afterwards|)
            && (next.queue != [] && (r.killed || (!r.ok && s.queue[0].retries + 1 <= 5))
                ==> next.queue[0].id == s.queue[0].id
                    && (!r.killed ==> next.queue[0].retries == s.queue[0].retries + 1))
  {
    PushAllKeeps(s, r.during);
    PushAllKeeps(Try(PushAll(s, r.during), r), r.afterwards);
  }

  /** A drain given rounds enough stops only at an empty queue, or when a call was cut short or failed with tries left. */
  lemma {:induction false} DrainStopsForAReason(s: State, rounds: seq<Round>)
    requires |rounds| >= |s.queue| + Arrivals(rounds)
    ensures StoppedForAReason(s, DrainFrom(s, rounds))
    decreases |rounds|
  {
    hide PushAll;
    if s.queue != [] {
      var r := rounds[0];
      OneRound(s, r);
      var next := PushAll(Try(PushAll(s, r.during), r), r.afterwards);
      if !Ends(s.queue[0], r) {
        NextFits(s, r, rounds);
        DrainStopsForAReason(next, rounds[1..]);
      }
    }
  }

  lemma {:induction false} NextFits(s: State, r: Round, rounds: seq<Round>)
    requires s.queue != [] && rounds != [] && rounds[0] == r && |rounds| >= |s.queue| + Arrivals(rounds) && !Ends(s.queue[0], r)
    ensures PushAll(s, r.during).queue != []
    ensures |rounds[1..]| >= |PushAll(Try(PushAll(s, r.during), r), r.afterwards).queue| + Arrivals(rounds[1..])
  {
    PushAllKeeps(s, r.during);
    PushAllKeeps(Try(PushAll(s, r.during), r), r.afterwards);
  }

  /** The requests that arrive during some rounds, in order. */
  function Arrived(rounds: seq<Round>): seq<Request> {
    if rounds == [] then [] else rounds[0].during + rounds[0].afterwards + Arrived(rounds[1..])
  }

  function Ids(rs: seq<Request>): seq<string> {
    seq(|rs|, i requires 0 <= i < |rs| => rs[i].id)
  }

  lemma IdsConcat(a: seq<Request>, b: seq<Request>)
    ensures Ids(a + b) == Ids(a) + Ids(b)
  {
  }

  lemma {:induction false} PushedIds(s: State, rs: seq<Request>)
    ensures Ids(PushAll(s, rs).queue) == Ids(s.queue) + Ids(rs)
  {
    if rs == [] {
      assert Ids(s.queue) + Ids([]) == Ids(s.queue);
    } else {
      var n := |rs| - 1;
      PushedIds(s, rs[..n]);
      IdsConcat(PushAll(s, rs[..n]).queue, [Fresh(rs[n])]);
      assert rs == rs[..n] + [rs[n]];
      IdsConcat(rs[..n], [rs[n]]);
      assert Ids([Fresh(rs[n])]) == Ids([rs[n]]);
    }
  }

  lemma AcknowledgedRound(s: State, r: Round)
    requires s.queue != [] && r.ok && !r.killed
    ensures PushAll(s, r.during).queue != []
    ensures Ids(PushAll(Try(PushAll(s, r.during), r), r.afterwards).queue)
         == Ids(s.queue[1..]) + Ids(r.during) + Ids(r.afterwards)
  {
    PushAllKeeps(s, r.during);
    PushedIds(s, r.during);
    var called := PushAll(s, r.during);
    PushedIds(Try(called, r), r.afterwards);
    assert Ids(called.queue[1..]) == Ids(called.queue)[1..];
    assert Ids(s.queue)[1..] == Ids(s.queue[1..]);
  }

  /** The calls of `after` beyond those of `before`, by request. */
  function CalledIds(before: State, after: State): seq<string>
    requires |before.calls| <= |after.calls|
  {
    seq(|after.calls| - |before.calls|, i requires 0 <= i < |after.calls| - |before.calls| => after.calls[|before.calls| + i].id)
  }

  ghost predicate AllAcknowledged(before: State, after: State) {
    && |before.calls| <= |after.calls| && after.calls[..|before.calls|] == before.calls
    && forall i :: |before.calls| <= i < |after.calls| ==> after.calls[i].ok && after.calls[i].applied && after.calls[i].kept
  }

  lemma CallsJoin(s: State, next: State, t: State)
    requires AllAcknowledged(s, next) && AllAcknowledged(next, t)
    ensures AllAcknowledged(s, t) && CalledIds(s, t) == CalledIds(s, next) + CalledIds(next, t)
  {
    assert forall i :: 0 <= i < |next.calls| ==> t.calls[i] == t.calls[..|next.calls|][i] == next.calls[i];
    assert t.calls[..|s.calls|] == next.calls[..|s.calls|];
  }

  /**
   * When every call is acknowledged and none is cut short, a drain given rounds
   * enough empties the queue: one call each, all acknowledged, for the requests
   * waiting and those arriving meanwhile, in order.
   */
  lemma {:induction false} AcknowledgedDrainEmpties(s: State, rounds: seq<Round>)
    requires |rounds| >= |s.queue| + Arrivals(rounds)
    requires forall r :: r in rounds ==> r.ok && !r.killed
    ensures var t := DrainFrom(s, rounds);
            && t.queue == [] && AllAcknowledged(s, t) && |t.calls| - |s.calls| <= |rounds|
            && CalledIds(s, t) == Ids(s.queue + Arrived(rounds[..|t.calls| - |s.calls|]))
    decreases |rounds|
  {
    hide DrainFrom;
    hide CalledIds;
    hide AllAcknowledged;
    hide Ids;
    hide Arrived;
    var t := DrainFrom(s, rounds);
    if s.queue == [] {
      NothingToDrain(s, rounds);
    } else {
      var next := FirstAcknowledged(s, rounds);
      assert forall q :: q in rounds[1..] ==> q in rounds;
      AcknowledgedDrainEmpties(next, rounds[1..]);
      CallsJoin(s, next, t);
      MoreCalls(next, t);
      RestAcknowledged(s, next, t, rounds);
    }
  }

  lemma NothingToDrain(s: State, rounds: seq<Round>)
    requires s.queue == []
    ensures DrainFrom(s, rounds) == s && AllAcknowledged(s, s) && CalledIds(s, s) == [] == Ids(s.queue + Arrived(rounds[..0]))
  {
  }

  lemma MoreCalls(s: State, t: State)
    requires AllAcknowledged(s, t)
    ensures |s.calls| <= |t.calls|
  {
  }

  /** The first round of such a drain. */
  lemma FirstAcknowledged(s: State, rounds: seq<Round>) returns (next: State)
    requires |rounds| >= |s.queue| + Arrivals(rounds) && s.queue != []
    requires forall r :: r in rounds ==> r.ok && !r.killed
    ensures DrainFrom(s, rounds) == DrainFrom(next, rounds[1..]) && |rounds[1..]| >= |next.queue| + Arrivals(rounds[1..])
    ensures AllAcknowledged(s, next) && CalledIds(s, next) == [s.queue[0].id] && |next.calls| == |s.calls| + 1
    ensures Ids(next.queue) == Ids(s.queue[1..]) + Ids(rounds[0].during) + Ids(rounds[0].afterwards)
  {
    hide PushAll;
    hide Ids;
    var r := rounds[0];
    assert r in rounds;
    OneRound(s, r);
    NextFits(s, r, rounds);
    AcknowledgedRound(s, r);
    next := PushAll(Try(PushAll(s, r.during), r), r.afterwards);
  }

  lemma RestAcknowledged(s: State, next: State, t: State, rounds: seq<Round>)
    requires s.queue != [] && |next.calls| == |s.calls| + 1
    requires |next.calls| <= |t.calls| && |t.calls| - |next.calls| <= |rounds| - 1
    requires Ids(next.queue) == Ids(s.queue[1..]) + Ids(rounds[0].during) + Ids(rounds[0].afterwards)
    requires CalledIds(s, t) == [s.queue[0].id] + Ids(next.queue + Arrived(rounds[1..][..|t.calls| - |next.calls|]))
    ensures CalledIds(s, t) == Ids(s.queue + Arrived(rounds[..|t.calls| - |s.calls|]))
  {
    hide Ids;
    hide CalledIds;
    var n := |t.calls| - |s.calls|;
    assert rounds[..n][1..] == rounds[1..][..n - 1];
    var later := Arrived(rounds[1..][..n - 1]);
    IdsConcat(next.queue, later);
    AckedIds(s.queue, rounds[0], later);
  }

  lemma AckedIds(queue: seq<Request>, r: Round, later: seq<Request>)
    requires queue != []
    ensures Ids(queue + (r.during + r.afterwards + later))
         == [queue[0].id] + (Ids(queue[1..]) + Ids(r.during) + Ids(r.afterwards) + Ids(later))
  {
    var all := queue + (r.during + r.afterwards + later);
    assert all == [queue[0]] + (queue[1..] + r.during + r.afterwards + later);
    IdsConcat([queue[0]], queue[1..] + r.during + r.afterwards + later);
    IdsConcat(queue[1..] + r.during + r.afterwards, later);
    IdsConcat(queue[1..] + r.during, r.afterwards);
    IdsConcat(queue[1..], r.during);
    assert Ids([queue[0]]) == [queue[0].id];
  }

  function Enqueues(rs: seq<Request>): seq<Event> {
    seq(|rs|, i requires 0 <= i < |rs| => Enqueued(rs[i]))
  }

  function Attempted(r: Round): Event {
    if r.killed then Killed(r.ok, r.applied) else Called(r.ok, r.applied)
  }

  /** The atomic steps of a drain. */
  function Script(s: State, rounds: seq<Round>): seq<Event>
    decreases |rounds|
  {
    if s.queue == [] || rounds == [] then []
    else
      var r := rounds[0];
      var called := PushAll(s, r.during);
      assert called.queue != [] by { PushAllKeeps(s, r.during); }
      var next := PushAll(Try(called, r), r.afterwards);
      Enqueues(r.during) + [Attempted(r)] + Enqueues(r.afterwards)
      + if Ends(s.queue[0], r) then [] else Script(next, rounds[1..])
  }

  lemma {:induction false} RunConcat(s: State, xs: seq<Event>, ys: seq<Event>)
    ensures Run(s, xs + ys) == Run(Run(s, xs), ys)
  {
    if ys == [] {
      assert xs + ys == xs;
    } else {
      var n := |ys| - 1;
      assert (xs + ys)[..|xs + ys| - 1] == xs + ys[..n];
      RunConcat(s, xs, ys[..n]);
    }
  }

  lemma {:induction false} RunEnqueues(s: State, rs: seq<Request>)
    ensures Run(s, Enqueues(rs)) == PushAll(s, rs)
  {
    if rs != [] {
      var n := |rs| - 1;
      RunEnqueues(s, rs[..n]);
      assert Enqueues(rs)[..n] == Enqueues(rs[..n]);
    }
  }

  /** The drain loop with its interleaved enqueues is a run of atomic steps, so `QueueIsFifo` speaks of it. */
  lemma {:induction false} DrainIsARun(s: State, rounds: seq<Round>)
    ensures Run(s, Script(s, rounds)) == DrainFrom(s, rounds)
    decreases |rounds|
  {
    if s.queue != [] && rounds != [] {
      var r := rounds[0];
      PushAllKeeps(s, r.during);
      var called := PushAll(s, r.during);
      var tried := Try(called, r);
      var next := PushAll(tried, r.afterwards);
      var rest := if Ends(s.queue[0], r) then [] else Script(next, rounds[1..]);
      RunEnqueues(s, r.during);
      RunConcat(s, Enqueues(r.during), [Attempted(r)]);
      assert [Attempted(r)][..0] == [];
      RunEnqueues(tried, r.afterwards);
      RunConcat(s, Enqueues(r.during) + [Attempted(r)], Enqueues(r.afterwards));
      RunConcat(s, Enqueues(r.during) + [Attempted(r)] + Enqueues(r.afterwards), rest);
      if !Ends(s.queue[0], r) {
        DrainIsARun(next, rounds[1..]);
      }
    }
  }
}
