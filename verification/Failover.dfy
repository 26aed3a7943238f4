/**
 * Notification provider failover: providers are tried in stable priority
 * order until one sends, with one callback per provider contacted.
 */
module Failover {
  import opened Basics

  /**
   * How a provider's transport answers this message. One that reports a failure
   * or throws, on a timeout say, may still have delivered it.
   */
  datatype Reply =
    | Sent
    | NotSent(error: Option<string>, delivered: bool)
    | Throws(message: Option<string>, delivered: bool)

  /**
   * A provider as this call meets it: whether its circuit is closed, what its
   * transport does, and what its callbacks throw, if anything: the success
   * callback, the failure callback after a reported failure, and the failure
   * callback after something was thrown.
   */
  datatype Provider = Provider(
    name: string,
    priority: int,
    available: bool,
    reply: Reply,
    successThrows: Option<string>,
    failureThrows: Option<string>,
    recoveryThrows: Option<string>)

  datatype Event =
    | Contacted(provider: Provider)
    | Succeeded(name: string)
    | Failed(name: string, error: string)

  /** `Rejected`: the call itself throws. */
  datatype SendResult = SentBy(provider: string) | AllFailed(error: string) | Rejected(error: string)

  // ---------------------------------------------------------------- stable sorting

  function Insert(p: Provider, sorted: seq<Provider>): seq<Provider> {
    if sorted == [] then [p]
    else if sorted[|sorted| - 1].priority <= p.priority then sorted + [p]
    else Insert(p, sorted[..|sorted| - 1]) + [sorted[|sorted| - 1]]
  }

  /** `[...providers].sort((a, b) => a.priority - b.priority)`: a stable sort. */
  function ByPriority(providers: seq<Provider>): seq<Provider> {
    if providers == [] then []
    else Insert(providers[|providers| - 1], ByPriority(providers[..|providers| - 1]))
  }

  ghost predicate Sorted(ps: seq<Provider>) {
    forall i, j :: 0 <= i < j < |ps| ==> ps[i].priority <= ps[j].priority
  }

  function WithPriority(ps: seq<Provider>, v: int): seq<Provider> {
    Filter(ps, (p: Provider) => p.priority == v)
  }

  /** Ascending priorities, and the providers of each priority in their given order. */
  ghost predicate StablySorted(given: seq<Provider>, ps: seq<Provider>) {
    Sorted(ps) && forall v :: WithPriority(ps, v) == WithPriority(given, v)
  }

  lemma PrioritySnoc(ps: seq<Provider>, p: Provider, v: int)
    ensures WithPriority(ps + [p], v) == WithPriority(ps, v) + if p.priority == v then [p] else []
  {
    assert (ps + [p])[..|ps|] == ps;
  }

  lemma PriorityMember(ps: seq<Provider>, p: Provider, v: int)
    ensures p in WithPriority(ps, v) <==> p in ps && p.priority == v
  {
  }

  lemma {:induction false} InsertSorted(p: Provider, sorted: seq<Provider>)
    requires Sorted(sorted)
    ensures Sorted(Insert(p, sorted))
    ensures forall q :: q in Insert(p, sorted) ==> q == p || q in sorted
  {
    if sorted != [] && sorted[|sorted| - 1].priority > p.priority {
      var init, last := sorted[..|sorted| - 1], sorted[|sorted| - 1];
      InsertSorted(p, init);
      forall q | q in Insert(p, init) ensures q.priority <= last.priority {
        if q != p {
          var i :| 0 <= i < |init| && init[i] == q;
        }
      }
    }
  }

  lemma {:induction false} InsertStable(p: Provider, sorted: seq<Provider>, v: int)
    requires Sorted(sorted)
    ensures WithPriority(Insert(p, sorted), v) == WithPriority(sorted + [p], v)
  {
    hide WithPriority;
    if sorted == [] {
      assert [] + [p] == [p];
    } else {
      var init, last := sorted[..|sorted| - 1], sorted[|sorted| - 1];
      assert sorted == init + [last];
      PrioritySnoc(init, last, v);
      PrioritySnoc(sorted, p, v);
      if last.priority > p.priority {
        InsertStable(p, init, v);
        PrioritySnoc(Insert(p, init), last, v);
        PrioritySnoc(init, p, v);
      }
    }
  }

  lemma {:induction false} SortIsStable(providers: seq<Provider>)
    ensures StablySorted(providers, ByPriority(providers))
  {
    hide WithPriority;
    if providers != [] {
      var init, last := providers[..|providers| - 1], providers[|providers| - 1];
      assert providers == init + [last];
      SortIsStable(init);
      InsertSorted(last, ByPriority(init));
      forall v ensures WithPriority(ByPriority(providers), v) == WithPriority(providers, v) {
        InsertStable(last, ByPriority(init), v);
        PrioritySnoc(ByPriority(init), last, v);
        PrioritySnoc(init, last, v);
      }
    }
  }

  /** There is only one stable sorting, so any stable sort the engine uses gives this order. */
  lemma {:induction false} StableSortIsUnique(a: seq<Provider>, b: seq<Provider>)
    requires Sorted(a) && Sorted(b) && forall v :: WithPriority(a, v) == WithPriority(b, v)
    ensures a == b
  {
    hide WithPriority;
    if a != [] && b != [] {
      var i, x, j, y := a[..|a| - 1], a[|a| - 1], b[..|b| - 1], b[|b| - 1];
      assert a == i + [x] && b == j + [y];
      LastOfItsPriority(a, b);
      LastOfItsPriority(b, a);
      forall v ensures WithPriority(i, v) == WithPriority(j, v) && (x.priority == v ==> x == y) {
        PrioritySnoc(i, x, v);
        PrioritySnoc(j, y, v);
        assert WithPriority(a, v) == WithPriority(b, v);
        assert x.priority == y.priority;
        if x.priority == v {
          SameLast(WithPriority(i, v), x, WithPriority(j, v), y);
        } else {
          assert WithPriority(i, v) + [] == WithPriority(i, v) && WithPriority(j, v) + [] == WithPriority(j, v);
        }
      }
      assert WithPriority(i, x.priority) == WithPriority(j, x.priority);
      StableSortIsUnique(i, j);
    } else if a != [] {
      PriorityMember(a, a[|a| - 1], a[|a| - 1].priority);
      PriorityMember(b, a[|a| - 1], a[|a| - 1].priority);
    } else if b != [] {
      PriorityMember(a, b[|b| - 1], b[|b| - 1].priority);
      PriorityMember(b, b[|b| - 1], b[|b| - 1].priority);
    }
  }

  lemma SameLast<T>(s: seq<T>, x: T, t: seq<T>, y: T)
    requires s + [x] == t + [y]
    ensures s == t && x == y
  {
    assert (s + [x])[|s|] == x && (t + [y])[|t|] == y;
    assert s == (s + [x])[..|s|] && t == (t + [y])[..|t|];
  }

  /** The last priority of one sorted list is not above that of the other. */
  lemma LastOfItsPriority(a: seq<Provider>, b: seq<Provider>)
    requires a != [] && b != [] && Sorted(b) && forall v :: WithPriority(a, v) == WithPriority(b, v)
    ensures a[|a| - 1].priority <= b[|b| - 1].priority
  {
    var x := a[|a| - 1];
    PriorityMember(a, x, x.priority);
    PriorityMember(b, x, x.priority);
    var i :| 0 <= i < |b| && b[i] == x;
  }

  // ---------------------------------------------------------------- the loop

  /** What reaches the catch block: thrown by the transport or by the callback called before. */
  function Caught(p: Provider): Option<string> {
    match p.reply
    case Sent => p.successThrows
    case NotSent(_, _) => p.failureThrows
    case Throws(message, _) => Some(message.GetOr("Unknown error"))
  }

  function Reported(p: Provider): string {
    if p.reply.NotSent? then p.reply.error.GetOr("Provider returned failed") else ""
  }

  function ErrorOf(p: Provider): string {
    if !p.available then "circuit open" else Caught(p).GetOr(Reported(p))
  }

  /** The provider ends the loop: it was available, sent, and its success callback returned. */
  predicate Ends(p: Provider) {
    p.available && p.reply.Sent? && p.successThrows.None?
  }

  /** The failure callback called from the catch block throws, which ends the whole call. */
  predicate Rejects(p: Provider) {
    p.available && Caught(p).Some? && p.recoveryThrows.Some?
  }

  predicate Stops(p: Provider) {
    Ends(p) || Rejects(p)
  }

  /** The callbacks one available provider gets: by its reply, and again from the catch block. */
  function CallbacksOf(p: Provider): seq<Event> {
    (match p.reply
     case Sent => [Succeeded(p.name)]
     case NotSent(_, _) => [Failed(p.name, Reported(p))]
     case Throws(_, _) => [])
    + if Caught(p).Some? then [Failed(p.name, Caught(p).value)] else []
  }

  function EventsOf(p: Provider): seq<Event> {
    if p.available then [Contacted(p)] + CallbacksOf(p) else []
  }

  function EventsOfAll(ps: seq<Provider>): seq<Event> {
    if ps == [] then [] else EventsOfAll(ps[..|ps| - 1]) + EventsOf(ps[|ps| - 1])
  }

  function ErrorLines(ps: seq<Provider>): seq<string> {
    seq(|ps|, i requires 0 <= i < |ps| => ps[i].name + ": " + ErrorOf(ps[i]))
  }

  /** `errors.join(' | ')` */
  function Join(lines: seq<string>): string {
    if lines == [] then ""
    else if |lines| == 1 then lines[0]
    else Join(lines[..|lines| - 1]) + " | " + lines[|lines| - 1]
  }

  function FailureText(errors: seq<string>): string {
    if Join(errors) == "" then "No providers available" else Join(errors)
  }

  /** The providers gone through: up to and including the first that stops the loop. */
  function Reached(ordered: seq<Provider>): seq<Provider> {
    var n := FirstIndex(ordered, (p: Provider) => Stops(p));
    if n < |ordered| then ordered[..n + 1] else ordered
  }

  lemma StepBookkeeping(ordered: seq<Provider>, i: nat)
    requires i <= |ordered|
    ensures EventsOfAll(ordered[..0]) == [] && ErrorLines(ordered[..0]) == []
    ensures i < |ordered| ==>
              && EventsOfAll(ordered[..i + 1]) == EventsOfAll(ordered[..i]) + EventsOf(ordered[i])
              && ErrorLines(ordered[..i + 1]) == ErrorLines(ordered[..i]) + [ordered[i].name + ": " + ErrorOf(ordered[i])]
  {
    hide EventsOf;
    hide ErrorOf;
    if i < |ordered| {
      assert ordered[..i + 1][..i] == ordered[..i];
    }
  }

  lemma ReachedUpTo(ordered: seq<Provider>, i: nat)
    requires i < |ordered| && Stops(ordered[i]) && forall j :: 0 <= j < i ==> !Stops(ordered[j])
    ensures Reached(ordered) == ordered[..i + 1]
  {
    var stops := (p: Provider) => Stops(p);
    assert stops(ordered[i]) && forall j :: 0 <= j < FirstIndex(ordered, stops) ==> !stops(ordered[j]);
  }

  lemma ReachedAll(ordered: seq<Provider>)
    requires forall j :: 0 <= j < |ordered| ==> !Stops(ordered[j])
    ensures Reached(ordered) == ordered
  {
  }

  datatype Outcome = Delivered | Failure(error: string) | Thrown(error: string)

  /** How the loop body leaves one provider. */
  function OutcomeOf(p: Provider): Outcome {
    if Ends(p) then Delivered
    else if Rejects(p) then Thrown(p.recoveryThrows.value)
    else Failure(ErrorOf(p))
  }

  /** After something was thrown: the failure callback is told, and the round fails unless that throws too. */
  ghost predicate FailsWith(p: Provider, outcome: Outcome, told: seq<Event>, error: string) {
    && told == [Failed(p.name, error)]
    && outcome == match p.recoveryThrows case None => Failure(error) case Some(e) => Thrown(e)
  }

  /** What one round of the loop comes to, case by case. */
  ghost predicate RoundIs(p: Provider, outcome: Outcome, happened: seq<Event>) {
    if !p.available then outcome == Failure("circuit open") && happened == []
    else
      happened != [] && happened[0] == Contacted(p) &&
      match p.reply
      case Sent =>
        && |happened| >= 2 && happened[1] == Succeeded(p.name)
        && (p.successThrows.None? ==> outcome == Delivered && |happened| == 2)
        && (p.successThrows.Some? ==> FailsWith(p, outcome, happened[2..], p.successThrows.value))
      case NotSent(error, _) =>
        var reported := match error case None => "Provider returned failed" case Some(e) => e;
        && |happened| >= 2 && happened[1] == Failed(p.name, reported)
        && (p.failureThrows.None? ==> outcome == Failure(reported) && |happened| == 2)
        && (p.failureThrows.Some? ==> FailsWith(p, outcome, happened[2..], p.failureThrows.value))
      case Throws(message, _) =>
        FailsWith(p, outcome, happened[1..], match message case None => "Unknown error" case Some(m) => m)
  }

  /** The loop body for one provider: how it is left, and what happened. */
  method TryProvider(p: Provider) returns (outcome: Outcome, happened: seq<Event>)
    ensures RoundIs(p, outcome, happened)
    ensures happened == EventsOf(p) && outcome == OutcomeOf(p)
  {
    if !p.available {
      return Failure("circuit open"), [];
    }
    happened := [Contacted(p)];
    var thrown := None;
    match p.reply {
      case Sent =>
        happened := happened + [Succeeded(p.name)];
        if p.successThrows.None? {
          return Delivered, happened;
        }
        thrown := p.successThrows;
      case NotSent(error, _) =>
        var err := if error.Some? then error.value else "Provider returned failed";
        happened := happened + [Failed(p.name, err)];
        if p.failureThrows.None? {
          return Failure(err), happened;
        }
        thrown := p.failureThrows;
      case Throws(message, _) =>
        thrown := Some(if message.Some? then message.value else "Unknown error");
    }
    happened := happened + [Failed(p.name, thrown.value)];
    if p.recoveryThrows.Some? {
      return Thrown(p.recoveryThrows.value), happened;
    }
    outcome := Failure(thrown.value);
  }

  method SendWithFailover(providers: seq<Provider>) returns (result: SendResult, events: seq<Event>)
    ensures var ordered := ByPriority(providers);
            var reached := Reached(ordered);
            && events == EventsOfAll(reached) && reached <= ordered
            && (forall i :: 0 <= i < |reached| - 1 ==> OutcomeOf(reached[i]).Failure?)
            && (reached != ordered ==> reached != [] && !OutcomeOf(reached[|reached| - 1]).Failure?)
            && match result
               case SentBy(name) =>
                 reached != [] && OutcomeOf(reached[|reached| - 1]) == Delivered && name == reached[|reached| - 1].name
               case Rejected(error) => reached != [] && OutcomeOf(reached[|reached| - 1]) == Thrown(error)
               case AllFailed(error) =>
                 && reached == ordered && (forall p :: p in ordered ==> OutcomeOf(p).Failure?)
                 && error == FailureText(ErrorLines(ordered))
  {
    hide EventsOfAll;
    hide Join;
    hide Reached;
    hide ByPriority;
    hide Stops;
    hide EventsOf;
    hide OutcomeOf;
    hide ErrorLines;
    hide RoundIs;
    var ordered := ByPriority(providers);
    var errors: seq<string> := [];
    events := [];
    StepBookkeeping(ordered, 0);
    var i := 0;
    while i < |ordered|
      invariant 0 <= i <= |ordered|
      invariant events == EventsOfAll(ordered[..i])
      invariant errors == ErrorLines(ordered[..i])
      invariant forall j :: 0 <= j < i ==> !Stops(ordered[j]) && OutcomeOf(ordered[j]).Failure?
    {
      StepBookkeeping(ordered, i);
      StopsIff(ordered[i]);
      var outcome, happened := TryProvider(ordered[i]);
      events := events + happened;
      match outcome {
        case Delivered =>
          ReachedUpTo(ordered, i);
          return SentBy(ordered[i].name), events;
        case Thrown(error) =>
          ReachedUpTo(ordered, i);
          return Rejected(error), events;
        case Failure(error) =>
          errors := errors + [ordered[i].name + ": " + error];
      }
      i := i + 1;
    }
    assert ordered[..i] == ordered;
    ReachedAll(ordered);
    result := AllFailed(FailureText(errors));
  }

  /** The loop goes on after a failure and only then; the failure's error is the provider's. */
  lemma StopsIff(p: Provider)
    ensures Stops(p) <==> !OutcomeOf(p).Failure?
    ensures OutcomeOf(p).Failure? ==> OutcomeOf(p).error == ErrorOf(p)
  {
  }

  /** An error line names its provider and its error, and the lines stand joined by bars, or one text if there are none. */
  lemma {:induction false} JoinedLines(a: seq<string>, b: seq<string>)
    ensures a != [] && b != [] ==> Join(a + b) == Join(a) + " | " + Join(b)
    ensures forall line: string :: Join([line]) == line
  {
    if a != [] && b != [] {
      var n := |b| - 1;
      assert (a + b)[..|a + b| - 1] == a + b[..n];
      if n == 0 {
        assert a + b[..n] == a && Join(b) == b[0];
        assert Join(a + b) == Join(a) + " | " + b[0];
      } else {
        JoinedLines(a, b[..n]);
        assert Join(b) == Join(b[..n]) + " | " + b[n];
      }
    }
  }

  lemma FailureTextIs(ordered: seq<Provider>)
    ensures ordered == [] ==> FailureText(ErrorLines(ordered)) == "No providers available"
    ensures ordered != [] ==> FailureText(ErrorLines(ordered)) == Join(ErrorLines(ordered))
    ensures |ErrorLines(ordered)| == |ordered|
    ensures forall i :: 0 <= i < |ordered| && OutcomeOf(ordered[i]).Failure?
              ==> ErrorLines(ordered)[i] == ordered[i].name + ": " + OutcomeOf(ordered[i]).error
  {
    if ordered != [] {
      JoinNotEmpty(ErrorLines(ordered));
    }
  }

  lemma {:induction false} JoinNotEmpty(lines: seq<string>)
    requires lines != [] && forall i :: 0 <= i < |lines| ==> lines[i] != ""
    ensures Join(lines) != ""
  {
  }

  // ---------------------------------------------------------------- what the events say

  function Available(ps: seq<Provider>): seq<Provider> {
    Filter(ps, (p: Provider) => p.available)
  }

  function Contacts(events: seq<Event>): seq<Provider> {
    if events == [] then []
    else
      var e := events[|events| - 1];
      Contacts(events[..|events| - 1]) + if e.Contacted? then [e.provider] else []
  }

  lemma {:induction false} ContactsConcat(a: seq<Event>, b: seq<Event>)
    ensures Contacts(a + b) == Contacts(a) + Contacts(b)
  {
    if b == [] {
      assert a + b == a;
    } else {
      assert (a + b)[..|a + b| - 1] == a + b[..|b| - 1];
      ContactsConcat(a, b[..|b| - 1]);
    }
  }

  lemma ContactsOfOne(p: Provider)
    ensures Contacts(EventsOf(p)) == if p.available then [p] else []
  {
    if p.available {
      assert Contacts([Contacted(p)]) == [p] by { assert [Contacted(p)][..0] == []; }
      ContactsConcat([Contacted(p)], CallbacksOf(p));
      NoContacts(CallbacksOf(p));
    }
  }

  lemma {:induction false} NoContacts(events: seq<Event>)
    requires forall e :: e in events ==> !e.Contacted?
    ensures Contacts(events) == []
  {
    if events != [] {
      assert events[|events| - 1] in events;
      NoContacts(events[..|events| - 1]);
    }
  }

  /** The providers contacted are exactly the available ones gone through, in stable priority order. */
  lemma {:induction false} ContactedInOrder(ps: seq<Provider>)
    ensures Contacts(EventsOfAll(ps)) == Available(ps)
  {
    if ps != [] {
      var init, last := ps[..|ps| - 1], ps[|ps| - 1];
      ContactedInOrder(init);
      ContactsConcat(EventsOfAll(init), EventsOf(last));
      ContactsOfOne(last);
    }
  }

  function Callbacks(events: seq<Event>): seq<Event> {
    Filter(events, (e: Event) => !e.Contacted?)
  }

  /** The one callback a contacted provider should get. */
  function CallbackFor(p: Provider): Event {
    match p.reply
    case Sent => Succeeded(p.name)
    case NotSent(_, _) => Failed(p.name, Reported(p))
    case Throws(_, _) => Failed(p.name, Caught(p).value)
  }

  function CallbacksFor(ps: seq<Provider>): seq<Event> {
    seq(|ps|, i requires 0 <= i < |ps| => CallbackFor(ps[i]))
  }

  /** The first callback throws, so that the failure callback is called after it. */
  predicate CalledTwice(p: Provider) {
    p.available && !p.reply.Throws? && Caught(p).Some?
  }

  function Twice(ps: seq<Provider>): seq<Provider> {
    Filter(ps, (p: Provider) => CalledTwice(p))
  }

  /** Every provider contacted gets one callback, and one more if the first throws. */
  lemma {:induction false} CallbackCount(ps: seq<Provider>)
    ensures |Callbacks(EventsOfAll(ps))| == |Available(ps)| + |Twice(ps)|
  {
    hide EventsOf;
    hide Callbacks;
    if ps == [] {
      NoCallbacks();
    } else {
      var init, last := ps[..|ps| - 1], ps[|ps| - 1];
      CallbackCount(init);
      CallbacksConcat(EventsOfAll(init), EventsOf(last));
      CallbacksOfOne(last);
    }
  }

  lemma {:induction false} MatchingCallbacks(ps: seq<Provider>)
    requires forall p :: p in ps ==> !CalledTwice(p)
    ensures Callbacks(EventsOfAll(ps)) == CallbacksFor(Available(ps))
  {
    hide Callbacks;
    hide EventsOf;
    hide CallbacksFor;
    hide Available;
    hide CalledTwice;
    if ps == [] {
      NoCallbacks();
    } else {
      var init, last := ps[..|ps| - 1], ps[|ps| - 1];
      assert ps == init + [last];
      MatchingCallbacks(init);
      CallbacksConcat(EventsOfAll(init), EventsOf(last));
      CallbacksOfOne(last);
      CallbacksForSnoc(init, last);
      assert last in ps;
    }
  }

  /**
   * Each provider contacted gets exactly one callback, the matching one, in
   * order, if and only if neither a success callback nor the failure callback
   * after a reported failure throws.
   */
  lemma OneCallbackEachIff(ps: seq<Provider>)
    ensures Callbacks(EventsOfAll(ps)) == CallbacksFor(Available(ps)) <==> forall p :: p in ps ==> !CalledTwice(p)
  {
    hide Callbacks;
    hide EventsOfAll;
    hide CalledTwice;
    if forall p :: p in ps ==> !CalledTwice(p) {
      MatchingCallbacks(ps);
    } else {
      var p :| p in ps && CalledTwice(p);
      assert p in Twice(ps);
      CallbackCount(ps);
    }
  }

  lemma NoCallbacks()
    ensures Callbacks([]) == [] && CallbacksFor(Available([])) == []
  {
  }

  lemma CallbacksForSnoc(ps: seq<Provider>, p: Provider)
    ensures CallbacksFor(Available(ps + [p]))
         == CallbacksFor(Available(ps)) + if p.available then [CallbackFor(p)] else []
  {
    assert (ps + [p])[..|ps|] == ps;
  }

  lemma CallbacksConcat(a: seq<Event>, b: seq<Event>)
    ensures Callbacks(a + b) == Callbacks(a) + Callbacks(b)
  {
    FilterConcat(a, b, (e: Event) => !e.Contacted?);
  }

  lemma CallbacksOfOne(p: Provider)
    ensures |Callbacks(EventsOf(p))| == (if p.available then 1 else 0) + (if CalledTwice(p) then 1 else 0)
    ensures !CalledTwice(p) ==> Callbacks(EventsOf(p)) == if p.available then [CallbackFor(p)] else []
  {
    hide Callbacks;
    hide Reported;
    if p.available {
      CallbacksConcat([Contacted(p)], CallbacksOf(p));
      NoCallback(p);
      AllCallbacks(CallbacksOf(p));
    } else {
      NoCallbacks();
    }
  }

  lemma NoCallback(p: Provider)
    ensures Callbacks([Contacted(p)]) == []
  {
  }

  lemma {:induction false} AllCallbacks(events: seq<Event>)
    requires forall e :: e in events ==> !e.Contacted?
    ensures Callbacks(events) == events
  {
    if events != [] {
      AllCallbacks(events[..|events| - 1]);
      assert events == events[..|events| - 1] + [events[|events| - 1]];
    }
  }

  // ---------------------------------------------------------------- at most one delivery

  /** The transport is contacted and the message goes out, whatever the transport reports. */
  predicate Delivers(p: Provider) {
    p.available && (p.reply.Sent? || p.reply.delivered)
  }

  function Deliverers(ps: seq<Provider>): seq<Provider> {
    Filter(ps, (p: Provider) => Delivers(p))
  }

  ghost predicate SomeDeliver(ps: seq<Provider>) {
    exists i :: 0 <= i < |ps| && Delivers(ps[i])
  }

  ghost predicate TwoDeliver(ps: seq<Provider>) {
    exists i, j :: 0 <= i < j < |ps| && Delivers(ps[i]) && Delivers(ps[j])
  }

  lemma {:induction false} DelivererCount(ps: seq<Provider>)
    ensures |Deliverers(ps)| >= 1 <==> SomeDeliver(ps)
    ensures |Deliverers(ps)| >= 2 <==> TwoDeliver(ps)
  {
    if ps != [] {
      var n := |ps| - 1;
      DelivererCount(ps[..n]);
      assert SomeDeliver(ps) <==> SomeDeliver(ps[..n]) || Delivers(ps[n]) by {
        assert forall i :: 0 <= i < n ==> ps[..n][i] == ps[i];
      }
      assert TwoDeliver(ps) <==> TwoDeliver(ps[..n]) || (SomeDeliver(ps[..n]) && Delivers(ps[n])) by {
        TwoDeliverSnoc(ps);
      }
    }
  }

  lemma TwoDeliverSnoc(ps: seq<Provider>)
    requires ps != []
    ensures var n := |ps| - 1;
            TwoDeliver(ps) <==> TwoDeliver(ps[..n]) || (SomeDeliver(ps[..n]) && Delivers(ps[n]))
  {
    var n := |ps| - 1;
    if i, j :| 0 <= i < j < |ps| && Delivers(ps[i]) && Delivers(ps[j]) {
      assert ps[..n][i] == ps[i];
      if j < n {
        assert ps[..n][j] == ps[j];
      }
    }
    if TwoDeliver(ps[..n]) {
      var i, j :| 0 <= i < j < n && Delivers(ps[..n][i]) && Delivers(ps[..n][j]);
      assert Delivers(ps[i]) && Delivers(ps[j]);
    } else if SomeDeliver(ps[..n]) && Delivers(ps[n]) {
      var i :| 0 <= i < n && Delivers(ps[..n][i]);
      assert Delivers(ps[i]) && Delivers(ps[n]);
    }
  }

  /** A provider is reached exactly when none before it stops the loop. */
  lemma ReachedIff(ordered: seq<Provider>, j: nat)
    requires j < |ordered|
    ensures j < |Reached(ordered)| <==> forall m :: 0 <= m < j ==> !Stops(ordered[m])
  {
    var stops := (p: Provider) => Stops(p);
    var n := FirstIndex(ordered, stops);
    assert forall m :: 0 <= m < n ==> !stops(ordered[m]);
    assert n < |ordered| ==> stops(ordered[n]);
  }

  lemma ReachedIsPrefix(ordered: seq<Provider>)
    ensures Reached(ordered) <= ordered
  {
  }

  /** Two providers deliver, and nothing before the second stops the loop: not even the first one's callback. */
  ghost predicate SecondDeliveryReached(ordered: seq<Provider>) {
    exists i, j :: 0 <= i < j < |ordered| && Delivers(ordered[i]) && Delivers(ordered[j])
                   && forall m :: 0 <= m < j ==> !Stops(ordered[m])
  }

  /**
   * The message goes out at most once, unless two providers deliver it and none
   * before the second stops the loop: the first one did not report it sent, or
   * its success callback threw and its failure callback returned.
   */
  lemma DeliveredOnceIff(ordered: seq<Provider>)
    ensures |Deliverers(Reached(ordered))| <= 1 <==> !SecondDeliveryReached(ordered)
  {
    hide Reached;
    hide Deliverers;
    hide Delivers;
    hide Stops;
    var reached := Reached(ordered);
    DelivererCount(reached);
    ReachedIsPrefix(ordered);
    if TwoDeliver(reached) {
      var i, j :| 0 <= i < j < |reached| && Delivers(reached[i]) && Delivers(reached[j]);
      ReachedIff(ordered, j);
      assert reached[i] == ordered[i] && reached[j] == ordered[j];
      assert SecondDeliveryReached(ordered);
    }
    if SecondDeliveryReached(ordered) {
      var i, j :| 0 <= i < j < |ordered| && Delivers(ordered[i]) && Delivers(ordered[j])
                  && forall m :: 0 <= m < j ==> !Stops(ordered[m]);
      ReachedIff(ordered, j);
      assert reached[i] == ordered[i] && reached[j] == ordered[j];
      assert TwoDeliver(reached);
    }
  }

  const UNCOUNTED := Provider("sms-a", 1, true, Sent, Some("database down"), None, None)
  const TIMED_OUT := Provider("sms-a", 1, true, Throws(Some("timeout"), true), None, None, None)
  const BACKUP := Provider("sms-b", 2, true, Sent, None, None, None)

  /**
   * The first provider delivers, but the callback that counts it throws, or the
   * transport times out after handing the message over: it goes out twice.
   */
  lemma DeliveredTwice(first: Provider)
    requires first == UNCOUNTED || first == TIMED_OUT
    ensures ByPriority([first, BACKUP]) == [first, BACKUP]
    ensures |Deliverers(Reached([first, BACKUP]))| == 2
  {
    var both := [first, BACKUP];
    assert both[..1] == [first] && both[..1][..0] == [];
    assert ByPriority([first]) == Insert(first, []) == [first];
    ReachedUpTo(both, 1);
    assert Reached(both) == both;
    assert Deliverers([first]) == [first];
  }
}
