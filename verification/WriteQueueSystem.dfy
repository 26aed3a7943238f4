/**
 * The offline write queue as a protocol: one device, one server, and any
 * interleaving of enqueues, drops, direct saves, flush steps and crashes.
 * Every step is atomic. The server may apply a send whose reply is lost.
 */
module WriteQueueSystem {
  import opened Basics
  import opened JobCards
  import opened WriteQueueCore
  import opened WriteQueueMeaning
  import opened WriteQueue

  /**
   * `used`, `clock`, `failures` and `settled` record history: the ids ever
   * handed out, the latest enqueue time, how many counted failures each id has
   * had, and the ids sent or given up by the flush in flight.
   */
  datatype System = System(
    client: Client,
    server: map<string, Site>,
    used: set<string>,
    clock: int,
    failures: map<string, nat>,
    settled: set<string>)

  const EMPTY_SITE := Site(BLANK_CARD, [], None)

  function SiteOf(server: map<string, Site>, b: string): Site {
    if b in server then server[b] else EMPTY_SITE
  }

  function Sent(server: map<string, Site>, b: string, payload: Payload): map<string, Site> {
    server[b := Send(SiteOf(server, b), payload)]
  }

  predicate Sending(c: Client) {
    c.flight.Some? && c.flight.value.next < |c.flight.value.snapshot|
  }

  function Current(c: Client): QueuedWrite
    requires Sending(c)
  {
    c.flight.value.snapshot[c.flight.value.next]
  }

  function FailureCount(failures: map<string, nat>, id: string): nat {
    if id in failures then failures[id] else 0
  }

  /** A failure that counts as an attempt: any but a network error or a 404. */
  predicate Counted(reply: Reply) {
    reply.OtherError? || (reply.HttpError? && reply.status != 404)
  }

  predicate Settles(w: QueuedWrite, reply: Reply) {
    reply.Accepted? || GivesUp(w, reply)
  }

  function Next(s: System, e: Event): System {
    var client := ClientNext(s.client, e);
    match e
    case Local(command) =>
      if command.Enqueue?
      then s.(client := client, used := s.used + {command.meta.id}, clock := command.meta.now)
      else s.(client := client)
    case DirectSave(b, patch) => s.(server := Sent(s.server, b, JobCardPatch(patch)))
    case StartFlush => if s.client.flight.Some? then s else s.(client := client, settled := {})
    case Perform(reply, applied) =>
      if !Sending(s.client) then s
      else
        var w := Current(s.client);
        s.(client := client,
           server := if applied || reply.Accepted? then Sent(s.server, w.bookingId, w.payload) else s.server,
           failures := if Counted(reply) then s.failures[w.id := FailureCount(s.failures, w.id) + 1] else s.failures,
           settled := SettledAfter(s.client.flight.value, s.settled, reply))
    case FinishFlush => s.(client := client)
    case Crash => s.(client := client)
  }

  function Run(s: System, events: seq<Event>): System {
    if events == [] then s
    else Next(Run(s, events[..|events| - 1]), events[|events| - 1])
  }

  /** Enqueues draw ids never used before, at times that do not go back. */
  predicate Legal(s: System, e: Event) {
    e.Local? && e.command.Enqueue? ==> e.command.meta.id !in s.used && s.clock <= e.command.meta.now
  }

  ghost predicate LegalRun(s: System, events: seq<Event>) {
    forall i :: 0 <= i < |events| ==> Legal(Run(s, events[..i]), events[i])
  }

  /** A fresh install against any server. */
  function Start(server: map<string, Site>): System {
    System(Client([], None), server, {}, 0, map[], {})
  }

  lemma LegalPrefix(s: System, events: seq<Event>)
    requires LegalRun(s, events) && events != []
    ensures LegalRun(s, events[..|events| - 1])
    ensures Legal(Run(s, events[..|events| - 1]), events[|events| - 1])
  {
    hide Run;
    var n := |events| - 1;
    forall i | 0 <= i < n ensures Legal(Run(s, events[..n][..i]), events[..n][i]) {
      assert events[..n][..i] == events[..i];
    }
  }

  // ---------------------------------------------------------------- soundness of every reachable state

  /** Ids handed out earlier, enqueue times in the past, and no more attempts than counted failures. */
  predicate Accounted(s: System, w: QueuedWrite) {
    w.id in s.used && w.createdAt <= s.clock && w.attempts <= FailureCount(s.failures, w.id)
  }

  ghost predicate AllAccounted(s: System, list: seq<QueuedWrite>) {
    forall w :: w in list ==> Accounted(s, w)
  }

  predicate KeptHas(kept: seq<QueuedWrite>, id: string) {
    Lookup(kept, id).Some?
  }

  ghost predicate KeptFromPrefix(f: Flight) {
    forall k :: k in f.kept ==> exists j :: 0 <= j < f.next <= |f.snapshot| && Body(f.snapshot[j]) == Body(k)
  }

  ghost predicate SettledExactly(f: Flight, settled: set<string>) {
    && (forall j :: 0 <= j < f.next <= |f.snapshot|
          ==> (f.snapshot[j].id in settled <==> !KeptHas(f.kept, f.snapshot[j].id)))
    && (forall id :: id in settled ==> exists j :: 0 <= j < f.next <= |f.snapshot| && f.snapshot[j].id == id)
  }

  ghost predicate FlightSound(f: Flight, settled: set<string>) {
    && WellFormed(f.snapshot) && f.next <= |f.snapshot|
    && KeptFromPrefix(f) && SettledExactly(f, settled)
    && f.flushed + f.dropped + |f.kept| == f.next
  }

  ghost predicate Sound(s: System) {
    && WellFormed(s.client.stored) && AllAccounted(s, s.client.stored)
    && (s.client.flight.Some? ==>
          var f := s.client.flight.value;
          FlightSound(f, s.settled) && AllAccounted(s, f.snapshot) && AllAccounted(s, f.kept))
  }

  lemma DistinctIds(list: seq<QueuedWrite>, i: nat, j: nat)
    requires Ordered(list) && i < j < |list|
    ensures list[i].id != list[j].id
  {
    assert MayPrecede(list[i], list[j]);
  }

  /** Nothing at or after the loop index is kept or settled yet. */
  lemma UnsentIsOpen(f: Flight, settled: set<string>, j: nat)
    requires FlightSound(f, settled) && f.next <= j < |f.snapshot|
    ensures !KeptHas(f.kept, f.snapshot[j].id) && f.snapshot[j].id !in settled
  {
    forall i | 0 <= i < f.next ensures f.snapshot[i].id != f.snapshot[j].id {
      DistinctIds(f.snapshot, i, j);
    }
  }

  function SettledAfter(f: Flight, settled: set<string>, reply: Reply): set<string>
    requires f.next < |f.snapshot|
  {
    if Settles(f.snapshot[f.next], reply) then settled + {f.snapshot[f.next].id} else settled
  }

  lemma SettledOrKept(f: Flight, settled: set<string>, reply: Reply, j: nat)
    requires FlightSound(f, settled) && f.next < |f.snapshot| && j < Settle(f, reply).next <= |f.snapshot|
    ensures f.snapshot[j].id in SettledAfter(f, settled, reply) <==> !KeptHas(Settle(f, reply).kept, f.snapshot[j].id)
  {
    hide WellFormed;
    hide SettledExactly;
    hide KeptHas;
    SettleLookup(f, reply, f.snapshot[j].id);
    if j < f.next {
      SettledBefore(f, settled, j);
    } else {
      UnsentIsOpen(f, settled, j);
      if f.next < j {
        assert f.snapshot[j] in f.snapshot[f.next..];
      }
    }
  }

  /** An entry already dealt with is settled or kept, and differs in id from the entries still to send. */
  lemma SettledBefore(f: Flight, settled: set<string>, j: nat)
    requires FlightSound(f, settled) && j < f.next < |f.snapshot|
    ensures f.snapshot[j].id in settled <==> !KeptHas(f.kept, f.snapshot[j].id)
    ensures forall q :: q in f.snapshot[f.next..] ==> q.id != f.snapshot[j].id
  {
    forall q | q in f.snapshot[f.next..] ensures q.id != f.snapshot[j].id {
      var k :| 0 <= k < |f.snapshot[f.next..]| && f.snapshot[f.next..][k] == q;
      DistinctIds(f.snapshot, j, f.next + k);
    }
    assert f.snapshot[f.next] in f.snapshot[f.next..];
  }

  lemma SettledIsDone(f: Flight, settled: set<string>, reply: Reply, id: string)
    requires FlightSound(f, settled) && f.next < |f.snapshot| && id in SettledAfter(f, settled, reply)
    ensures var g := Settle(f, reply);
            exists j :: 0 <= j < g.next <= |g.snapshot| && g.snapshot[j].id == id
  {
    var g := Settle(f, reply);
    if id in settled {
      var j :| 0 <= j < f.next <= |f.snapshot| && f.snapshot[j].id == id;
      assert g.snapshot[j].id == id;
    } else {
      assert g.snapshot[f.next].id == id;
    }
  }

  lemma SettleSound(f: Flight, settled: set<string>, reply: Reply)
    requires FlightSound(f, settled) && f.next < |f.snapshot|
    ensures FlightSound(Settle(f, reply), SettledAfter(f, settled, reply))
  {
    hide WellFormed;
    hide KeptFromPrefix;
    hide KeptHas;
    var g, after := Settle(f, reply), SettledAfter(f, settled, reply);
    SettleKept(f, reply);
    forall j | 0 <= j < g.next <= |g.snapshot|
      ensures g.snapshot[j].id in after <==> !KeptHas(g.kept, g.snapshot[j].id)
    {
      SettledOrKept(f, settled, reply, j);
    }
    forall id | id in after ensures exists j :: 0 <= j < g.next <= |g.snapshot| && g.snapshot[j].id == id {
      SettledIsDone(f, settled, reply, id);
    }
  }

  /** Which ids one round adds to `kept`. */
  lemma SettleLookup(f: Flight, reply: Reply, id: string)
    requires f.next < |f.snapshot|
    ensures var w, kept := f.snapshot[f.next], Settle(f, reply).kept;
            KeptHas(kept, id) <==>
              || KeptHas(f.kept, id)
              || (reply.NetworkError? && exists q :: q in f.snapshot[f.next..] && q.id == id)
              || (!reply.NetworkError? && !Settles(w, reply) && w.id == id)
  {
  }

  lemma SettleKept(f: Flight, reply: Reply)
    requires KeptFromPrefix(f) && f.next < |f.snapshot|
    ensures KeptFromPrefix(Settle(f, reply))
  {
    var g := Settle(f, reply);
    forall k | k in g.kept
      ensures exists j :: 0 <= j < g.next <= |g.snapshot| && Body(g.snapshot[j]) == Body(k)
    {
      if k in f.kept {
        var j :| 0 <= j < f.next <= |f.snapshot| && Body(f.snapshot[j]) == Body(k);
        assert Body(g.snapshot[j]) == Body(k);
      } else if reply.NetworkError? {
        var j :| 0 <= j < |f.snapshot[f.next..]| && f.snapshot[f.next..][j] == k;
        assert Body(g.snapshot[f.next + j]) == Body(k);
      } else {
        assert Body(g.snapshot[f.next]) == Body(k);
      }
    }
  }

  lemma KeptIsFromSnapshot(f: Flight, settled: set<string>)
    requires FlightSound(f, settled)
    ensures KeptFrom(f.snapshot, f.kept)
  {
  }

  /** The merged list keeps the order and shape of the list it was re-read from. */
  lemma {:induction false} ReconcileOrdered(snapshot: seq<QueuedWrite>, kept: seq<QueuedWrite>, latest: seq<QueuedWrite>)
    requires Ordered(snapshot) && KeptFrom(snapshot, kept) && Ordered(latest)
    ensures Ordered(Reconcile(snapshot, kept, latest)) && |Reconcile(snapshot, kept, latest)| <= |latest|
  {
    hide ReconcileOne;
    hide Refreshed;
    hide Survives;
    hide KeptFrom;
    if latest != [] {
      var n := |latest| - 1;
      var before, one := Reconcile(snapshot, kept, latest[..n]), ReconcileOne(snapshot, kept, latest[n]);
      ReconcileOrdered(snapshot, kept, latest[..n]);
      ReconcileOneExact(snapshot, kept, latest[n]);
      RefreshedBody(kept, latest[n]);
      forall r | r in before && one != [] ensures MayPrecede(r, one[0]) {
        ReconcileOrigin(snapshot, kept, latest[..n], r);
        var q :| q in latest[..n] && MergedFrom(snapshot, kept, q, r);
        RefreshedBody(kept, q);
        var i :| 0 <= i < n && latest[i] == q;
        assert MayPrecede(latest[i], latest[n]);
      }
      assert one == [] || one == [one[0]];
    }
  }

  lemma LocalSound(s: System, e: Event)
    requires Sound(s) && e.Local? && Legal(s, e)
    ensures Sound(Next(s, e))
  {
    hide WellFormed;
    hide SettledExactly;
    hide KeptFromPrefix;
    hide Execute;
    ExecuteSound(s, e);
  }

  lemma ExecuteSound(s: System, e: Event)
    requires Sound(s) && e.Local? && Legal(s, e)
    ensures WellFormed(Next(s, e).client.stored) && AllAccounted(Next(s, e), Next(s, e).client.stored)
  {
    hide WriteQueueCore.Extend;
    var stored := s.client.stored;
    match e.command
    case Enqueue(write, meta) =>
      AppendKeepsWellFormed(stored, write, meta);
      TrimKeepsOrdered(AppendWrite(stored, write, meta));
      ExtendEntries(stored, write, meta);
    case Drop(b) =>
      OrderedFilter(stored, (w: QueuedWrite) => !IsPatchFor(w, b));
      TrimKeepsOrdered(WithoutJobCardPatch(stored, b));
  }

  lemma FinishSound(s: System)
    requires Sound(s)
    ensures WellFormed(Next(s, FinishFlush).client.stored)
    ensures AllAccounted(Next(s, FinishFlush), Next(s, FinishFlush).client.stored)
  {
    if s.client.flight.Some? {
      var f, stored := s.client.flight.value, s.client.stored;
      KeptIsFromSnapshot(f, s.settled);
      ReconcileOrdered(f.snapshot, f.kept, stored);
      TrimKeepsOrdered(Reconcile(f.snapshot, f.kept, stored));
      forall r | r in Reconcile(f.snapshot, f.kept, stored) ensures Accounted(s, r) {
        ReconcileOrigin(f.snapshot, f.kept, stored, r);
        var q :| q in stored && MergedFrom(f.snapshot, f.kept, q, r);
        assert Accounted(s, q);
      }
    }
  }

  lemma PerformParts(s: System, reply: Reply, applied: bool)
    requires Sending(s.client)
    ensures var t := Next(s, Perform(reply, applied));
            && t.client == Client(s.client.stored, Some(Settle(s.client.flight.value, reply)))
            && t.settled == SettledAfter(s.client.flight.value, s.settled, reply)
            && t.used == s.used && t.clock == s.clock
            && forall id :: FailureCount(t.failures, id) >= FailureCount(s.failures, id)
  {
    hide Sent;
    hide Settle;
    hide SettledAfter;
  }

  lemma StillAccounted(s: System, t: System, list: seq<QueuedWrite>)
    requires AllAccounted(s, list) && t.used == s.used && t.clock == s.clock
    requires forall id :: FailureCount(t.failures, id) >= FailureCount(s.failures, id)
    ensures AllAccounted(t, list)
  {
    forall w | w in list ensures Accounted(t, w) {
      assert Accounted(s, w);
    }
  }

  lemma PerformSound(s: System, reply: Reply, applied: bool)
    requires Sound(s)
    ensures Sound(Next(s, Perform(reply, applied)))
  {
    if Sending(s.client) {
      PerformSends(s, reply, applied);
    }
  }

  lemma PerformSends(s: System, reply: Reply, applied: bool)
    requires Sound(s) && Sending(s.client)
    ensures Sound(Next(s, Perform(reply, applied)))
  {
    hide Next;
    hide FlightSound;
    hide WellFormed;
    hide AllAccounted;
    hide SettledAfter;
    var f, t := s.client.flight.value, Next(s, Perform(reply, applied));
    PerformParts(s, reply, applied);
    SettleFlight(s, reply);
    StillAccounted(s, t, s.client.stored);
    StillAccounted(s, t, f.snapshot);
    SettleAccounted(s, reply, applied);
  }

  lemma SettleFlight(s: System, reply: Reply)
    requires Sound(s) && Sending(s.client)
    ensures var f := s.client.flight.value;
            FlightSound(Settle(f, reply), SettledAfter(f, s.settled, reply)) && Settle(f, reply).snapshot == f.snapshot
  {
    SettleSound(s.client.flight.value, s.settled, reply);
  }

  lemma SettleAccounted(s: System, reply: Reply, applied: bool)
    requires AllAccounted(s, s.client.stored) && Sending(s.client)
    requires AllAccounted(s, s.client.flight.value.snapshot) && AllAccounted(s, s.client.flight.value.kept)
    ensures var t := Next(s, Perform(reply, applied));
            AllAccounted(t, Settle(s.client.flight.value, reply).kept)
  {
    hide Sent;
    var f, t := s.client.flight.value, Next(s, Perform(reply, applied));
    assert Accounted(s, f.snapshot[f.next]);
    forall k | k in Settle(f, reply).kept ensures Accounted(t, k) {
      if k in f.kept {
        assert Accounted(s, k);
      } else if reply.NetworkError? {
        assert k in f.snapshot[f.next..];
        assert Accounted(s, k);
      }
    }
  }

  lemma QuietSound(s: System, e: Event)
    requires Sound(s) && (e.DirectSave? || e.Crash?)
    ensures Sound(Next(s, e))
  {
    hide WellFormed;
    hide FlightSound;
    hide Sent;
    var t := Next(s, e);
    assert t.used == s.used && t.clock == s.clock && t.failures == s.failures && t.settled == s.settled;
    forall w ensures Accounted(t, w) <==> Accounted(s, w) {
    }
  }

  lemma StartSound(s: System)
    requires Sound(s)
    ensures Sound(Next(s, StartFlush))
  {
    hide WellFormed;
  }

  /**
   * Every step keeps the queue well formed (ids distinct, at most 200 entries,
   * one patch and one signature per booking, creation order), the flush's books
   * balanced, and attempts within the failures actually counted.
   */
  lemma StepKeepsSound(s: System, e: Event)
    requires Sound(s) && Legal(s, e)
    ensures Sound(Next(s, e))
  {
    hide WellFormed;
    hide AllAccounted;
    hide FlightSound;
    match e
    case Local(_) => LocalSound(s, e);
    case DirectSave(_, _) => QuietSound(s, e);
    case StartFlush => StartSound(s);
    case Perform(reply, applied) => PerformSound(s, reply, applied);
    case FinishFlush => FinishSound(s);
    case Crash => QuietSound(s, e);
  }

  lemma {:induction false} ReachableIsSound(server: map<string, Site>, events: seq<Event>)
    requires LegalRun(Start(server), events)
    ensures Sound(Run(Start(server), events))
  {
    if events != [] {
      LegalPrefix(Start(server), events);
      ReachableIsSound(server, events[..|events| - 1]);
      StepKeepsSound(Run(Start(server), events[..|events| - 1]), events[|events| - 1]);
    }
  }

  // ---------------------------------------------------------------- flush: reconciliation, give-up, accounting

  /**
   * At the end of a flush an entry of the re-read list disappears exactly when
   * it stands in the snapshot unchanged and was sent or given up; all others
   * stay, in order, a kept one with the retry counter the loop gave it.
   */
  lemma FlushReconciliation(s: System)
    requires Sound(s) && s.client.flight.Some? && !Sending(s.client)
    ensures var f := s.client.flight.value;
            Next(s, FinishFlush).client.stored
            == RefreshedAll(f.kept, Filter(s.client.stored, (q: QueuedWrite) => !(q in f.snapshot && q.id in s.settled)))
    ensures Next(s, FinishFlush).client.flight == None
  {
    hide Reconcile;
    hide RefreshedAll;
    hide WellFormed;
    var f, stored := s.client.flight.value, s.client.stored;
    var gone := (q: QueuedWrite) => !(q in f.snapshot && q.id in s.settled);
    MergedInPlace(s);
    ReconcileExact(f.snapshot, f.kept, stored);
    forall q | q in stored ensures Survives(f.snapshot, f.kept, q) == gone(q) {
      SurvivesUnlessSettled(f, s.settled, q);
    }
    SameFilter(stored, (q: QueuedWrite) => Survives(f.snapshot, f.kept, q), gone);
  }

  /** The merge never reaches the cap, so the list is stored as merged. */
  lemma MergedInPlace(s: System)
    requires Sound(s) && s.client.flight.Some? && !Sending(s.client)
    ensures var f := s.client.flight.value;
            && Ordered(f.snapshot) && KeptFrom(f.snapshot, f.kept)
            && Next(s, FinishFlush).client == Client(Reconcile(f.snapshot, f.kept, s.client.stored), None)
  {
    var f, stored := s.client.flight.value, s.client.stored;
    KeptIsFromSnapshot(f, s.settled);
    ReconcileOrdered(f.snapshot, f.kept, stored);
    TrimKeepsOrdered(Reconcile(f.snapshot, f.kept, stored));
  }

  lemma SurvivesUnlessSettled(f: Flight, settled: set<string>, q: QueuedWrite)
    requires FlightSound(f, settled) && f.next == |f.snapshot|
    ensures Survives(f.snapshot, f.kept, q) <==> !(q in f.snapshot && q.id in settled)
  {
    if q in f.snapshot {
      var j :| 0 <= j < |f.snapshot| && f.snapshot[j] == q;
      assert f.snapshot[j].id in settled <==> !KeptHas(f.kept, f.snapshot[j].id);
    }
  }

  /**
   * A flush gives up on an entry exactly when an HTTP status other than 404
   * meets an entry with four attempts behind it, and by then its id has had at
   * least five counted failures.
   */
  lemma GiveUpRule(s: System, reply: Reply, applied: bool)
    requires Sound(s) && Sending(s.client)
    ensures var t, w := Next(s, Perform(reply, applied)), Current(s.client);
            && (t.client.flight.value.dropped == s.client.flight.value.dropped + 1
                <==> reply.HttpError? && reply.status != 404 && w.attempts >= 4)
            && (t.client.flight.value.dropped != s.client.flight.value.dropped
                ==> FailureCount(t.failures, w.id) >= 5)
  {
    var w := Current(s.client);
    assert Accounted(s, w);
  }

  /** What those failures are: the replies to an entry of that id which were errors other than of the network or a 404. */
  lemma FailuresCounted(s: System, e: Event, id: string)
    ensures FailureCount(Next(s, e).failures, id) == FailureCount(s.failures, id)
            + if e.Perform? && Sending(s.client) && Current(s.client).id == id
                 && (e.reply.OtherError? || (e.reply.HttpError? && e.reply.status != 404)) then 1 else 0
  {
    hide Sent;
    hide ClientNext;
    hide SettledAfter;
  }

  /** Network errors and 404s never count against an entry; other failures count once. */
  lemma CountingRule(s: System, reply: Reply, applied: bool)
    requires Sound(s) && Sending(s.client)
    ensures var w, t := Current(s.client), Next(s, Perform(reply, applied));
            var kept := Lookup(t.client.flight.value.kept, w.id);
            kept == if Settles(w, reply) then None
                    else if reply.OtherError? || (reply.HttpError? && reply.status != 404)
                    then Some(w.(attempts := w.attempts + 1))
                    else Some(w)
  {
    hide Lookup;
    var f := s.client.flight.value;
    UnsentIsOpen(f, s.settled, f.next);
    SettledLookup(f, reply);
  }

  lemma SettledLookup(f: Flight, reply: Reply)
    requires Ordered(f.snapshot) && f.next < |f.snapshot| && Lookup(f.kept, f.snapshot[f.next].id) == None
    ensures var w := f.snapshot[f.next];
            Lookup(Settle(f, reply).kept, w.id) ==
              if Settles(w, reply) then None
              else if reply.OtherError? || (reply.HttpError? && reply.status != 404)
              then Some(w.(attempts := w.attempts + 1))
              else Some(w)
  {
    hide Lookup;
    if reply.NetworkError? {
      LookupTail(f.kept, f.snapshot, f.next);
    } else if !Settles(f.snapshot[f.next], reply) {
      LookupSnoc(f.kept, Retried(f.snapshot[f.next], reply), f.snapshot[f.next].id);
    }
  }

  lemma LookupSnoc(list: seq<QueuedWrite>, w: QueuedWrite, id: string)
    ensures Lookup(list + [w], id) == if w.id == id then Some(w) else Lookup(list, id)
  {
    assert (list + [w])[..|list|] == list;
  }

  /** Appending a tail of the snapshot makes each entry of the tail found as it stands. */
  lemma {:induction false} LookupTail(kept: seq<QueuedWrite>, snapshot: seq<QueuedWrite>, n: nat)
    requires Ordered(snapshot) && n < |snapshot|
    ensures Lookup(kept + snapshot[n..], snapshot[n].id) == Some(snapshot[n])
    decreases |snapshot|
  {
    hide Lookup;
    var last := |snapshot| - 1;
    var shorter := snapshot[..last];
    if n == last {
      assert kept + snapshot[n..] == kept + [snapshot[n]];
      LookupSnoc(kept, snapshot[n], snapshot[n].id);
    } else {
      DistinctIds(snapshot, n, last);
      assert kept + snapshot[n..] == kept + shorter[n..] + [snapshot[last]];
      LookupSnoc(kept + shorter[n..], snapshot[last], snapshot[n].id);
      assert forall i :: 0 <= i < last ==> shorter[i] == snapshot[i];
      LookupTail(kept, shorter, n);
    }
  }

  /** The replies among some events, in order. */
  function Replies(events: seq<Event>): seq<Reply> {
    if events == [] then []
    else
      var last := events[|events| - 1];
      Replies(events[..|events| - 1]) + if last.Perform? then [last.reply] else []
  }

  lemma {:induction false} LoopPosition(s: System, events: seq<Event>)
    requires s.client.flight.Some? && forall e :: e in events ==> !e.FinishFlush? && !e.Crash?
    ensures var f, c := s.client.flight.value, Run(s, events).client;
            && c.flight.Some? && c.flight.value.snapshot == f.snapshot
            && (Sending(c) <==> f.next + |Replies(events)| < |f.snapshot| && NetworkError !in Replies(events))
            && (Sending(c) ==> c.flight.value.next == f.next + |Replies(events)|)
  {
    hide Sent;
    hide Execute;
    hide SettledAfter;
    if events != [] {
      var n := |events| - 1;
      assert events == events[..n] + [events[n]];
      LoopPosition(s, events[..n]);
      var t := Run(s, events[..n]);
      LoopStep(t, events[n]);
    }
  }

  lemma LoopStep(s: System, e: Event)
    requires s.client.flight.Some? && !e.FinishFlush? && !e.Crash?
    ensures var f, c := s.client.flight.value, Next(s, e).client;
            && c.flight.Some? && c.flight.value.snapshot == f.snapshot
            && (if e.Perform? && Sending(s.client)
                then Sending(c) <==> f.next + 1 < |f.snapshot| && !e.reply.NetworkError?
                else c.flight == s.client.flight)
            && (e.Perform? && Sending(c) ==> c.flight.value.next == f.next + 1)
  {
  }

  /**
   * When the loop stops. Whatever enqueues, drops and direct saves happen
   * meanwhile, a flush in flight goes on sending until the snapshot is used up
   * or a reply was a network error; no other failure ends it, not even one
   * without an HTTP status.
   */
  lemma LoopStopsIff(s: System, events: seq<Event>)
    requires s.client.flight.Some? && forall e :: e in events ==> !e.FinishFlush? && !e.Crash?
    ensures var f := s.client.flight.value;
            Sending(Run(s, events).client)
            <==> f.next + |Replies(events)| < |f.snapshot| && NetworkError !in Replies(events)
  {
    LoopPosition(s, events);
  }

  predicate NothingDropped(c: Client) {
    c.flight.Some? ==> c.flight.value.dropped == 0
  }

  lemma NothingDroppedStep(s: System, e: Event)
    requires NothingDropped(s.client) && (e.Perform? ==> !e.reply.HttpError?)
    ensures NothingDropped(Next(s, e).client)
  {
    hide Sent;
    hide Execute;
    hide Reconcile;
    hide SettledAfter;
  }

  /** However often sends fail, no flush gives anything up in a run without an HTTP error reply. */
  lemma {:induction false} NothingDroppedWithoutStatus(server: map<string, Site>, events: seq<Event>)
    requires forall e :: e in events && e.Perform? ==> !e.reply.HttpError?
    ensures NothingDropped(Run(Start(server), events).client)
  {
    hide Next;
    if events != [] {
      var n := |events| - 1;
      assert events == events[..n] + [events[n]];
      NothingDroppedWithoutStatus(server, events[..n]);
      NothingDroppedStep(Run(Start(server), events[..n]), events[n]);
    }
  }

  const TWO_PHOTOS: seq<Event> := [
    Local(Enqueue(NewWrite("b1", PhotoUpload("file:1", "image/jpeg", PartsPhoto, None)), Meta("w1", 1))),
    Local(Enqueue(NewWrite("b1", PhotoUpload("file:2", "image/jpeg", PartsPhoto, None)), Meta("w2", 2)))]

  lemma PhotosQueued()
    ensures LegalRun(Start(map[]), TWO_PHOTOS)
    ensures var c := Run(Start(map[]), TWO_PHOTOS).client;
            c.flight == None && |c.stored| == 2
  {
    hide Sent;
    var first := [TWO_PHOTOS[0]];
    assert first[..0] == [] && TWO_PHOTOS[..1] == first && TWO_PHOTOS[..0] == [];
    var s1 := Next(Start(map[]), TWO_PHOTOS[0]);
    assert Run(Start(map[]), first) == s1 && s1.used == {"w1"} && |s1.client.stored| == 1;
    assert Run(Start(map[]), TWO_PHOTOS) == Next(s1, TWO_PHOTOS[1]);
  }

  lemma FirstFailureGoesOn(s: System)
    requires s.client.flight == None && |s.client.stored| == 2
    ensures Sending(Next(Next(s, StartFlush), Perform(OtherError, false)).client)
  {
    hide Sent;
    LoopStep(Next(s, StartFlush), Perform(OtherError, false));
  }

  /** Such a failure on the first of two queued photos does not stop the flush. */
  lemma StatuslessErrorGoesOn()
    ensures var events := TWO_PHOTOS + [StartFlush] + [Perform(OtherError, false)];
            LegalRun(Start(map[]), events) && Sending(Run(Start(map[]), events).client)
  {
    hide Next;
    var begun := TWO_PHOTOS + [StartFlush];
    var events := begun + [Perform(OtherError, false)];
    PhotosQueued();
    assert begun[..2] == TWO_PHOTOS && events[..3] == begun;
    FirstFailureGoesOn(Run(Start(map[]), TWO_PHOTOS));
    forall i | 0 <= i < |events| ensures Legal(Run(Start(map[]), events[..i]), events[i]) {
      if i < 2 {
        assert events[..i] == TWO_PHOTOS[..i] && events[i] == TWO_PHOTOS[i];
      }
    }
  }

  /** On every exit of the loop, sent, given up and kept entries make up the snapshot. */
  lemma FlushAccounting(server: map<string, Site>, events: seq<Event>)
    requires LegalRun(Start(server), events)
    ensures var c := Run(Start(server), events).client;
            c.flight.Some? && !Sending(c) ==>
              var f := c.flight.value;
              f.flushed + f.dropped + |f.kept| == |f.snapshot|
  {
    ReachableIsSound(server, events);
  }

  // ---------------------------------------------------------------- the device inside the system

  /** The device's part of a run does not depend on the server. */
  lemma {:induction false} ClientOfRun(s: System, events: seq<Event>)
    ensures Run(s, events).client == RunClient(s.client, events)
  {
    if events != [] {
      ClientOfRun(s, events[..|events| - 1]);
    }
  }

  /** A whole `doFlush`, whatever happens during its awaits, is a run of the system's atomic steps. */
  lemma DeviceFlushIsARun(s: System, world: nat -> Await)
    requires s.client.flight == None
    ensures var stored := s.client.stored;
            var begin := Flight(stored, 0, [], 0, 0);
            Run(s, [StartFlush] + Script(begin, world)).client == Client(RunFlush(stored, begin, world).0, None)
  {
    var begin := Flight(s.client.stored, 0, [], 0, 0);
    ClientOfRun(s, [StartFlush] + Script(begin, world));
    RunConcat(s.client, [StartFlush], Script(begin, world));
    assert [StartFlush][..0] == [];
    FlushIsARun(s.client.stored, begin, world);
  }
}
