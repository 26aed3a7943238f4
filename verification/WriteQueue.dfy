/**
 * The stateful runtime of the offline write queue: the persisted list, the
 * enqueue and drop operations, and the single-flight flush that sends a
 * snapshot while the list keeps changing and then reconciles the two.
 */
module WriteQueue {
  import opened Basics
  import opened WriteQueueCore

  /** How one `perform` ends, as the flush loop sees it. */
  datatype Reply = Accepted | NetworkError | HttpError(status: int) | OtherError

  function ApiStatus(reply: Reply): Option<int> {
    if reply.HttpError? then Some(reply.status) else None
  }

  /** The variables of a running flush: its snapshot, the loop index, and its accumulators. */
  datatype Flight = Flight(
    snapshot: seq<QueuedWrite>,
    next: nat,
    kept: seq<QueuedWrite>,
    flushed: nat,
    dropped: nat)

  predicate GivesUp(w: QueuedWrite, reply: Reply) {
    (reply.HttpError? || reply.OtherError?) && ClassifyFailure(ApiStatus(reply), w.attempts).Failed?
  }

  function Retried(w: QueuedWrite, reply: Reply): QueuedWrite {
    if ApiStatus(reply) == Some(404) then w else w.(attempts := w.attempts + 1)
  }

  /** One round of the flush loop, after the reply to the entry at `next`. */
  function Settle(f: Flight, reply: Reply): Flight
    requires f.next < |f.snapshot|
  {
    var w := f.snapshot[f.next];
    if reply.Accepted? then f.(next := f.next + 1, flushed := f.flushed + 1)
    else if reply.NetworkError? then f.(next := |f.snapshot|, kept := f.kept + f.snapshot[f.next..])
    else if GivesUp(w, reply) then f.(next := f.next + 1, dropped := f.dropped + 1)
    else f.(next := f.next + 1, kept := f.kept + [Retried(w, reply)])
  }

  /** `new Map(list.map(q => [q.id, q])).get(id)`: the last entry with that id. */
  function Lookup(list: seq<QueuedWrite>, id: string): (r: Option<QueuedWrite>)
    ensures r.Some? ==> r.value in list && r.value.id == id
    ensures r.None? <==> forall q :: q in list ==> q.id != id
  {
    if list == [] then None
    else if list[|list| - 1].id == id then Some(list[|list| - 1])
    else
      assert list == list[..|list| - 1] + [list[|list| - 1]];
      Lookup(list[..|list| - 1], id)
  }

  /** What the closing merge makes of one entry of the re-read list. */
  function ReconcileOne(snapshot: seq<QueuedWrite>, kept: seq<QueuedWrite>, q: QueuedWrite): seq<QueuedWrite> {
    var snap := Lookup(snapshot, q.id);
    if snap.None? then [q]
    else
      var changed := q != snap.value;
      var k := Lookup(kept, q.id);
      if k.Some? then [if changed then q.(attempts := k.value.attempts) else k.value]
      else if changed then [q] else []
  }

  function Reconcile(snapshot: seq<QueuedWrite>, kept: seq<QueuedWrite>, latest: seq<QueuedWrite>): seq<QueuedWrite> {
    if latest == [] then []
    else
      var n := |latest| - 1;
      Reconcile(snapshot, kept, latest[..n]) + ReconcileOne(snapshot, kept, latest[n])
  }

  // ---------------------------------------------------------------- reconciliation is exact

  /** The entry without its retry counter. */
  function Body(w: QueuedWrite): QueuedWrite {
    w.(attempts := 0)
  }

  /** The entry with the retry counter of its kept version, or its own if it has none. */
  function Refreshed(kept: seq<QueuedWrite>, q: QueuedWrite): QueuedWrite {
    var k := Lookup(kept, q.id);
    if k.Some? then q.(attempts := k.value.attempts) else q
  }

  lemma RefreshedBody(kept: seq<QueuedWrite>, q: QueuedWrite)
    ensures Body(Refreshed(kept, q)) == Body(q)
  {
  }

  function RefreshedAll(kept: seq<QueuedWrite>, list: seq<QueuedWrite>): seq<QueuedWrite> {
    seq(|list|, i requires 0 <= i < |list| => Refreshed(kept, list[i]))
  }

  /** Kept entries are snapshot entries, up to their retry counters. */
  ghost predicate KeptFrom(snapshot: seq<QueuedWrite>, kept: seq<QueuedWrite>) {
    forall k :: k in kept ==> exists s :: s in snapshot && Body(s) == Body(k)
  }

  /** Not in the snapshot, or changed since, or neither sent nor given up. */
  predicate Survives(snapshot: seq<QueuedWrite>, kept: seq<QueuedWrite>, q: QueuedWrite) {
    q !in snapshot || Lookup(kept, q.id).Some?
  }

  function Survivors(snapshot: seq<QueuedWrite>, kept: seq<QueuedWrite>, latest: seq<QueuedWrite>): seq<QueuedWrite> {
    Filter(latest, (q: QueuedWrite) => Survives(snapshot, kept, q))
  }

  lemma ReconcileOneExact(snapshot: seq<QueuedWrite>, kept: seq<QueuedWrite>, q: QueuedWrite)
    requires Ordered(snapshot) && KeptFrom(snapshot, kept)
    ensures ReconcileOne(snapshot, kept, q) == if Survives(snapshot, kept, q) then [Refreshed(kept, q)] else []
  {
    var snap, k := Lookup(snapshot, q.id), Lookup(kept, q.id);
    if q in snapshot {
      SameId(snapshot, q, snap.value);
    }
    if k.Some? {
      var s :| s in snapshot && Body(s) == Body(k.value);
      if snap.Some? {
        SameId(snapshot, s, snap.value);
      }
    }
  }

  /** `r` is what the merge makes of the surviving entry `q`. */
  ghost predicate MergedFrom(snapshot: seq<QueuedWrite>, kept: seq<QueuedWrite>, q: QueuedWrite, r: QueuedWrite) {
    Survives(snapshot, kept, q) && r == Refreshed(kept, q)
  }

  /**
   * The merge is exact. It is the re-read list with precisely those entries
   * struck out that stand in the snapshot unchanged and are not kept. Nothing
   * else disappears, nothing is brought back, the order stays, and a kept
   * entry's retry counter is the one the loop left it with.
   */
  lemma {:induction false} ReconcileExact(snapshot: seq<QueuedWrite>, kept: seq<QueuedWrite>, latest: seq<QueuedWrite>)
    requires Ordered(snapshot) && KeptFrom(snapshot, kept)
    ensures Reconcile(snapshot, kept, latest) == RefreshedAll(kept, Survivors(snapshot, kept, latest))
  {
    hide ReconcileOne;
    hide Survives;
    hide Refreshed;
    if latest != [] {
      var n := |latest| - 1;
      ReconcileExact(snapshot, kept, latest[..n]);
      ReconcileOneExact(snapshot, kept, latest[n]);
      var before := Survivors(snapshot, kept, latest[..n]);
      if Survives(snapshot, kept, latest[n]) {
        assert RefreshedAll(kept, before + [latest[n]]) == RefreshedAll(kept, before) + [Refreshed(kept, latest[n])];
      } else {
        assert Survivors(snapshot, kept, latest) == before;
      }
    }
  }

  lemma {:induction false} ReconcileOrigin(snapshot: seq<QueuedWrite>, kept: seq<QueuedWrite>, latest: seq<QueuedWrite>, r: QueuedWrite)
    requires Ordered(snapshot) && KeptFrom(snapshot, kept)
    requires r in Reconcile(snapshot, kept, latest)
    ensures exists q :: q in latest && MergedFrom(snapshot, kept, q, r)
  {
    var n := |latest| - 1;
    assert latest == latest[..n] + [latest[n]];
    if r in Reconcile(snapshot, kept, latest[..n]) {
      ReconcileOrigin(snapshot, kept, latest[..n], r);
    } else {
      ReconcileOneExact(snapshot, kept, latest[n]);
      assert MergedFrom(snapshot, kept, latest[n], r);
    }
  }

  // ---------------------------------------------------------------- the device

  /** What screens may do to the list while a flush awaits the network. */
  datatype Command =
    | Enqueue(write: NewWrite, meta: Meta)
    | Drop(bookingId: string)

  function Execute(stored: seq<QueuedWrite>, c: Command): seq<QueuedWrite> {
    match c
    case Enqueue(write, meta) => TrimWrites(AppendWrite(stored, write, meta))
    case Drop(bookingId) =>
      var next := WithoutJobCardPatch(stored, bookingId);
      if |next| != |stored| then TrimWrites(next) else stored
  }

  function ExecuteAll(stored: seq<QueuedWrite>, cs: seq<Command>): seq<QueuedWrite> {
    if cs == [] then stored
    else Execute(ExecuteAll(stored, cs[..|cs| - 1]), cs[|cs| - 1])
  }

  datatype FlushResult = FlushResult(flushed: nat, remaining: nat, dropped: nat)

  /** The device's side of the protocol: the persisted list and the flush in flight, if any. */
  datatype Client = Client(stored: seq<QueuedWrite>, flight: Option<Flight>)

  datatype Event =
    | Local(command: Command)
    | DirectSave(bookingId: string, patch: JobCards.Patch)
    | StartFlush
    | Perform(reply: Reply, applied: bool)
    | FinishFlush
    | Crash

  import JobCards

  /** One atomic step. A flush requested while one is in flight joins it; a crash forgets the flight. */
  function ClientNext(c: Client, e: Event): Client {
    match e
    case Local(command) => c.(stored := Execute(c.stored, command))
    case DirectSave(_, _) => c
    case StartFlush => if c.flight.Some? then c else c.(flight := Some(Flight(c.stored, 0, [], 0, 0)))
    case Perform(reply, _) =>
      if c.flight.Some? && c.flight.value.next < |c.flight.value.snapshot|
      then c.(flight := Some(Settle(c.flight.value, reply))) else c
    case FinishFlush =>
      if c.flight.Some? && c.flight.value.next == |c.flight.value.snapshot|
      then
        var f := c.flight.value;
        Client(TrimWrites(Reconcile(f.snapshot, f.kept, c.stored)), None)
      else c
    case Crash => c.(flight := None)
  }

  function RunClient(c: Client, events: seq<Event>): Client {
    if events == [] then c
    else ClientNext(RunClient(c, events[..|events| - 1]), events[|events| - 1])
  }

  /** What happens while the flush awaits the reply to one entry, and that reply. */
  datatype Await = Await(meanwhile: seq<Command>, reply: Reply, applied: bool)

  /** A whole flush from a given point on, `world` deciding every await. */
  function RunFlush(stored: seq<QueuedWrite>, f: Flight, world: nat -> Await): (seq<QueuedWrite>, FlushResult)
    requires f.next <= |f.snapshot|
    decreases |f.snapshot| - f.next
  {
    if f.next == |f.snapshot| then
      var queue := Reconcile(f.snapshot, f.kept, stored);
      (TrimWrites(queue), FlushResult(f.flushed, |queue|, f.dropped))
    else
      RunFlush(ExecuteAll(stored, world(f.next).meanwhile), Settle(f, world(f.next).reply), world)
  }

  lemma FlushRound(stored: seq<QueuedWrite>, f: Flight, world: nat -> Await)
    requires f.next < |f.snapshot|
    ensures RunFlush(stored, f, world)
         == RunFlush(ExecuteAll(stored, world(f.next).meanwhile), Settle(f, world(f.next).reply), world)
  {
  }

  lemma FlushEnd(stored: seq<QueuedWrite>, f: Flight, world: nat -> Await)
    requires f.next == |f.snapshot|
    ensures var queue := Reconcile(f.snapshot, f.kept, stored);
            RunFlush(stored, f, world) == (TrimWrites(queue), FlushResult(f.flushed, |queue|, f.dropped))
  {
  }

  // ---------------------------------------------------------------- what a flush reports

  /** Where the loop stops: at the first network error from `i` on, or past the last entry. */
  function StopAt(n: nat, i: nat, world: nat -> Await): (stop: nat)
    requires i <= n
    ensures i <= stop <= n
    ensures forall k :: i <= k < stop ==> !world(k).reply.NetworkError?
    ensures stop < n ==> world(stop).reply.NetworkError?
    decreases n - i
  {
    if i == n || world(i).reply.NetworkError? then i else StopAt(n, i + 1, world)
  }

  /** The entries sent with success from `i` on. */
  ghost function AcceptedFrom(n: nat, i: nat, world: nat -> Await): set<nat>
    requires i <= n
  {
    set k: nat | i <= k < StopAt(n, i, world) && world(k).reply == Accepted
  }

  /** Refused by an HTTP status other than 404 with four attempts behind it. */
  ghost predicate Refused(w: QueuedWrite, reply: Reply) {
    reply.HttpError? && reply.status != 404 && w.attempts >= 4
  }

  /** The entries given up from `i` on. */
  ghost function GivenUpFrom(snapshot: seq<QueuedWrite>, i: nat, world: nat -> Await): set<nat>
    requires i <= |snapshot|
  {
    set k: nat | i <= k < StopAt(|snapshot|, i, world) && Refused(snapshot[k], world(k).reply)
  }

  lemma StopsLater(n: nat, i: nat, world: nat -> Await)
    requires i < n && !world(i).reply.NetworkError?
    ensures StopAt(n, i, world) == StopAt(n, i + 1, world) > i
  {
  }

  lemma OneMoreIn(s: set<nat>, t: set<nat>, i: nat, counted: bool)
    requires i !in t && s == t + if counted then {i} else {}
    ensures |s| == |t| + if counted then 1 else 0
  {
  }

  lemma FirstAccepted(n: nat, i: nat, world: nat -> Await)
    requires i < n && !world(i).reply.NetworkError?
    ensures |AcceptedFrom(n, i, world)| == |AcceptedFrom(n, i + 1, world)| + if world(i).reply == Accepted then 1 else 0
  {
    hide StopAt;
    StopsLater(n, i, world);
    OneMoreIn(AcceptedFrom(n, i, world), AcceptedFrom(n, i + 1, world), i, world(i).reply == Accepted);
  }

  lemma FirstGivenUp(snapshot: seq<QueuedWrite>, i: nat, world: nat -> Await)
    requires i < |snapshot| && !world(i).reply.NetworkError?
    ensures |GivenUpFrom(snapshot, i, world)|
         == |GivenUpFrom(snapshot, i + 1, world)| + if Refused(snapshot[i], world(i).reply) then 1 else 0
  {
    hide StopAt;
    hide Refused;
    StopsLater(|snapshot|, i, world);
    OneMoreIn(GivenUpFrom(snapshot, i, world), GivenUpFrom(snapshot, i + 1, world), i, Refused(snapshot[i], world(i).reply));
  }

  lemma NoneCounted(f: Flight, world: nat -> Await)
    requires f.next <= |f.snapshot| && (f.next < |f.snapshot| ==> world(f.next).reply.NetworkError?)
    ensures AcceptedFrom(|f.snapshot|, f.next, world) == {} && GivenUpFrom(f.snapshot, f.next, world) == {}
  {
  }

  lemma {:induction false} ReconcileShorter(snapshot: seq<QueuedWrite>, kept: seq<QueuedWrite>, latest: seq<QueuedWrite>)
    ensures |Reconcile(snapshot, kept, latest)| <= |latest|
  {
    if latest != [] {
      ReconcileShorter(snapshot, kept, latest[..|latest| - 1]);
    }
  }

  lemma {:induction false} ExecuteFits(stored: seq<QueuedWrite>, cs: seq<Command>)
    requires |stored| <= MAX_WRITE_QUEUE
    ensures |ExecuteAll(stored, cs)| <= MAX_WRITE_QUEUE
  {
    hide AppendWrite;
    if cs != [] {
      ExecuteFits(stored, cs[..|cs| - 1]);
    }
  }

  /**
   * What a flush reports is what happened: as flushed the entries the server
   * accepted before the loop stopped, as dropped those given up, and as
   * remaining the length of the list it leaves.
   */
  lemma {:induction false} FlushReports(stored: seq<QueuedWrite>, f: Flight, world: nat -> Await)
    requires f.next <= |f.snapshot| && |stored| <= MAX_WRITE_QUEUE
    ensures var (left, result) := RunFlush(stored, f, world);
            && result.flushed == f.flushed + |AcceptedFrom(|f.snapshot|, f.next, world)|
            && result.dropped == f.dropped + |GivenUpFrom(f.snapshot, f.next, world)|
            && result.remaining == |left|
    decreases |f.snapshot| - f.next
  {
    hide Reconcile;
    hide AcceptedFrom;
    hide GivenUpFrom;
    hide ExecuteAll;
    if f.next == |f.snapshot| {
      NoneCounted(f, world);
      ReconcileShorter(f.snapshot, f.kept, stored);
    } else {
      var g, reply := Settle(f, world(f.next).reply), world(f.next).reply;
      ExecuteFits(stored, world(f.next).meanwhile);
      FlushReports(ExecuteAll(stored, world(f.next).meanwhile), g, world);
      if reply.NetworkError? {
        NoneCounted(f, world);
        NoneCounted(g, world);
      } else {
        FirstAccepted(|f.snapshot|, f.next, world);
        FirstGivenUp(f.snapshot, f.next, world);
      }
    }
  }

  class Device {
    var stored: seq<QueuedWrite>
    /** The promise of the flush in flight, how many were started, and what the settled ones gave. */
    var flushing: Option<nat>
    var started: nat
    var results: map<nat, FlushResult>

    /** Promises are numbered as started; each is settled but the one in flight. */
    ghost predicate Valid()
      reads this
    {
      && (forall t: nat :: t in results <==> t < started && flushing != Some(t))
      && (flushing.Some? ==> flushing.value < started)
    }

    constructor ()
      ensures Valid() && stored == [] && flushing == None && results == map[]
    {
      stored, flushing, started, results := [], None, 0, map[];
    }

    method WriteQueue(items: seq<QueuedWrite>)
      modifies `stored
      ensures stored == TrimWrites(items) == if |items| > 200 then items[|items| - 200..] else items
    {
      stored := if |items| > MAX_WRITE_QUEUE then items[|items| - MAX_WRITE_QUEUE..] else items;
    }

    method EnqueueWrite(write: NewWrite, meta: Meta)
      modifies `stored
      ensures stored == Execute(old(stored), Enqueue(write, meta))
    {
      WriteQueue(AppendWrite(stored, write, meta));
    }

    method DropQueuedJobCardPatch(bookingId: string)
      modifies `stored
      ensures stored == Execute(old(stored), Drop(bookingId))
      ensures |old(stored)| <= 200
              ==> stored == Filter(old(stored), (w: QueuedWrite) => !(w.payload.JobCardPatch? && w.bookingId == bookingId))
    {
      var next := WithoutJobCardPatch(stored, bookingId);
      SameFilter(stored, (w: QueuedWrite) => !IsPatchFor(w, bookingId),
                 (w: QueuedWrite) => !(w.payload.JobCardPatch? && w.bookingId == bookingId));
      FilterSameLength(stored, (w: QueuedWrite) => !IsPatchFor(w, bookingId));
      if |next| != |stored| {
        WriteQueue(next);
      }
    }

    /** The interference of the rest of the app during one await. */
    method Interfere(commands: seq<Command>)
      modifies `stored
      ensures stored == ExecuteAll(old(stored), commands)
    {
      var i := 0;
      while i < |commands|
        invariant 0 <= i <= |commands|
        invariant stored == ExecuteAll(old(stored), commands[..i])
      {
        match commands[i] {
          case Enqueue(write, meta) => EnqueueWrite(write, meta);
          case Drop(bookingId) => DropQueuedJobCardPatch(bookingId);
        }
        i := i + 1;
        assert commands[..i][..i - 1] == commands[..i - 1];
      }
      assert commands[..i] == commands;
    }

    method DoFlush(world: nat -> Await) returns (result: FlushResult)
      modifies `stored
      ensures (stored, result) == RunFlush(old(stored), Flight(old(stored), 0, [], 0, 0), world)
    {
      hide RunFlush;
      hide ExecuteAll;
      hide Reconcile;
      hide WriteQueueCore.TrimWrites;
      var queue := stored;
      var flushed, dropped, kept := 0, 0, [];
      var i := 0;
      ghost var outcome := RunFlush(stored, Flight(queue, 0, [], 0, 0), world);
      while i < |queue|
        invariant 0 <= i <= |queue|
        invariant RunFlush(stored, Flight(queue, i, kept, flushed, dropped), world) == outcome
      {
        var w := queue[i];
        var await := world(i);
        FlushRound(stored, Flight(queue, i, kept, flushed, dropped), world);
        Interfere(await.meanwhile);
        if await.reply.Accepted? {
          flushed := flushed + 1;
        } else if await.reply.NetworkError? {
          kept := kept + queue[i..];
          i := |queue|;
          break;
        } else {
          if ClassifyFailure(ApiStatus(await.reply), w.attempts).Failed? {
            dropped := dropped + 1;
          } else {
            kept := kept + [w.(attempts := if ApiStatus(await.reply) == Some(404) then w.attempts else w.attempts + 1)];
          }
        }
        i := i + 1;
      }
      FlushEnd(stored, Flight(queue, i, kept, flushed, dropped), world);
      var merged := Reconcile(queue, kept, stored);
      WriteQueue(merged);
      result := FlushResult(flushed, |merged|, dropped);
    }

    /** Single flight: while a flush runs, a caller gets its promise instead of starting another. */
    method FlushWriteQueue() returns (promise: nat)
      requires Valid()
      modifies `flushing, `started
      ensures Valid() && flushing == Some(promise) && promise !in results
      ensures old(flushing).Some? ==> promise == old(flushing).value && started == old(started)
      ensures old(flushing).None? ==> promise == old(started) && started == old(started) + 1
    {
      if flushing.None? {
        flushing := Some(started);
        started := started + 1;
      }
      promise := flushing.value;
    }

    /** The flush in flight runs to its end and settles its promise for every caller who got it. */
    method CompleteFlush(world: nat -> Await)
      requires Valid() && flushing.Some?
      modifies `stored, `flushing, `results
      ensures Valid() && flushing == None
      ensures var promise := old(flushing).value;
              && promise in results && results == old(results)[promise := results[promise]]
              && (stored, results[promise]) == RunFlush(old(stored), Flight(old(stored), 0, [], 0, 0), world)
    {
      var result := DoFlush(world);
      results := results[flushing.value := result];
      flushing := None;
    }
  }

  // ---------------------------------------------------------------- a flush is a run of atomic steps

  function Locals(cs: seq<Command>): seq<Event> {
    seq(|cs|, i requires 0 <= i < |cs| => Local(cs[i]))
  }

  /** The atomic steps of the rest of a flush. */
  function Script(f: Flight, world: nat -> Await): seq<Event>
    requires f.next <= |f.snapshot|
    decreases |f.snapshot| - f.next
  {
    if f.next == |f.snapshot| then [FinishFlush]
    else
      var a := world(f.next);
      Locals(a.meanwhile) + [Perform(a.reply, a.applied)] + Script(Settle(f, a.reply), world)
  }

  lemma {:induction false} RunConcat(c: Client, xs: seq<Event>, ys: seq<Event>)
    ensures RunClient(c, xs + ys) == RunClient(RunClient(c, xs), ys)
  {
    if ys == [] {
      assert xs + ys == xs;
    } else {
      var n := |ys| - 1;
      assert (xs + ys)[..|xs + ys| - 1] == xs + ys[..n];
      RunConcat(c, xs, ys[..n]);
    }
  }

  lemma {:induction false} RunLocals(c: Client, cs: seq<Command>)
    ensures RunClient(c, Locals(cs)) == c.(stored := ExecuteAll(c.stored, cs))
  {
    if cs != [] {
      var n := |cs| - 1;
      RunLocals(c, cs[..n]);
      assert Locals(cs)[..n] == Locals(cs[..n]);
    }
  }

  /** One await: the interference, then the reply. */
  lemma RunAwait(stored: seq<QueuedWrite>, f: Flight, a: Await)
    requires f.next < |f.snapshot|
    ensures RunClient(Client(stored, Some(f)), Locals(a.meanwhile) + [Perform(a.reply, a.applied)])
         == Client(ExecuteAll(stored, a.meanwhile), Some(Settle(f, a.reply)))
  {
    hide Settle;
    hide ExecuteAll;
    var during, perform := Locals(a.meanwhile), [Perform(a.reply, a.applied)];
    RunLocals(Client(stored, Some(f)), a.meanwhile);
    assert (during + perform)[..|during|] == during;
  }

  /** The loop of `doFlush`, with its interference, is a run of the protocol's atomic steps. */
  lemma {:induction false} FlushIsARun(stored: seq<QueuedWrite>, f: Flight, world: nat -> Await)
    requires f.next <= |f.snapshot|
    ensures RunClient(Client(stored, Some(f)), Script(f, world)) == Client(RunFlush(stored, f, world).0, None)
    decreases |f.snapshot| - f.next
  {
    hide Reconcile;
    hide ExecuteAll;
    hide WriteQueueCore.TrimWrites;
    var c := Client(stored, Some(f));
    if f.next == |f.snapshot| {
      assert [FinishFlush][..0] == [];
    } else {
      var a := world(f.next);
      RunAwait(stored, f, a);
      FlushIsARun(ExecuteAll(stored, a.meanwhile), Settle(f, a.reply), world);
      RunConcat(c, Locals(a.meanwhile) + [Perform(a.reply, a.applied)], Script(Settle(f, a.reply), world));
    }
  }
}
