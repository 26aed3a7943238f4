/**
 * Convergence of the offline write queue over whole runs: what the server
 * holds for a booking, overridden by what is still pending for it, is the
 * replay of everything ever enqueued for it.
 */
module WriteQueueConvergence {
  import opened Basics
  import opened JobCards
  import opened WriteQueueCore
  import opened WriteQueueMeaning
  import opened WriteQueue
  import opened WriteQueueSystem

  function CardOf(s: System, b: string): Card {
    SiteOf(s.server, b).card
  }

  /** The cell as the server will show it once the pending patch arrives. */
  function Shown(s: System, b: string, x: Cell): Option<Json> {
    At(CardOf(s, b) + PendingEffect(s.client.stored, b), x)
  }

  predicate EnqueuesPatch(e: Event, b: string) {
    e.Local? && e.command.Enqueue? && e.command.write.payload.JobCardPatch? && e.command.write.bookingId == b
  }

  /** No enqueue pushes an entry over the cap. */
  predicate WithinCap(s: System, e: Event) {
    e.Local? && e.command.Enqueue? ==>
      |Extend(s.client.stored, e.command.write, e.command.meta)| <= MAX_WRITE_QUEUE
  }

  predicate GivesUpOn(s: System, e: Event, b: string) {
    e.Perform? && Sending(s.client) && Current(s.client).bookingId == b && GivesUp(Current(s.client), e.reply)
  }

  /** Booking `b` is only written through the queue, and the queue never discards a write of its. */
  predicate Undisturbed(s: System, e: Event, b: string) {
    && WithinCap(s, e)
    && !(e.Local? && e.command.Drop? && e.command.bookingId == b)
    && !(e.DirectSave? && e.bookingId == b)
    && !GivesUpOn(s, e, b)
  }

  /** If this step coalesces a patch of `b`, the merged patch still writes `x` if the queued one did. */
  predicate KeepsCell(s: System, e: Event, b: string, x: Cell) {
    EnqueuesPatch(e, b) ==>
      match PendingPatch(s.client.stored, b)
      case None => true
      case Some(prev) => x in Effect(prev) ==> x in Effect(Merge(prev, e.command.write.payload.patch))
  }

  // ---------------------------------------------------------------- one cell of one job card

  /** A snapshot patch of `b` not yet sent is still covered by the pending patch. */
  ghost predicate UnsentPending(s: System, b: string, x: Cell) {
    s.client.flight.Some? ==>
      var f := s.client.flight.value;
      forall j :: f.next <= j < |f.snapshot| && IsPatchFor(f.snapshot[j], b) && x in Effect(f.snapshot[j].payload.patch)
        ==> x in PendingEffect(s.client.stored, b)
  }

  /** A snapshot patch of `b` that was sent is what the card shows. */
  ghost predicate SentShown(s: System, b: string, x: Cell) {
    s.client.flight.Some? ==>
      var f := s.client.flight.value;
      forall j :: 0 <= j < f.next <= |f.snapshot| && IsPatchFor(f.snapshot[j], b) && f.snapshot[j].id in s.settled
        && x in Effect(f.snapshot[j].payload.patch)
        ==> At(CardOf(s, b), x) == Some(Effect(f.snapshot[j].payload.patch)[x])
  }

  ghost predicate CellInv(s: System, b: string, x: Cell) {
    Sound(s) && UnsentPending(s, b, x) && SentShown(s, b, x)
  }

  /** What an enqueue adds to the replay of the booking's patches, at one cell. */
  function Replayed(before: Option<Json>, e: Event, b: string, x: Cell): Option<Json> {
    if EnqueuesPatch(e, b) && x in Effect(e.command.write.payload.patch)
    then Some(Effect(e.command.write.payload.patch)[x]) else before
  }

  lemma MergedCell(prev: Patch, patch: Patch, x: Cell)
    requires x in Effect(prev) ==> x in Effect(Merge(prev, patch))
    ensures x in Effect(Merge(prev, patch)) <==> x in Effect(prev) || x in Effect(patch)
    ensures x in Effect(patch) ==> Effect(Merge(prev, patch))[x] == Effect(patch)[x]
    ensures x in Effect(prev) && x !in Effect(patch) ==> Effect(Merge(prev, patch))[x] == Effect(prev)[x]
  {
    MergeEffect(prev, patch);
  }

  /** Within the cap the stored list after an enqueue is the extended one. */
  lemma StoredAfterEnqueue(s: System, e: Event)
    requires Sound(s) && Legal(s, e) && WithinCap(s, e) && e.Local? && e.command.Enqueue?
    ensures Next(s, e).client.stored == Extend(s.client.stored, e.command.write, e.command.meta)
    ensures FreshFor(s.client.stored, e.command.meta)
  {
    hide WriteQueueCore.Extend;
    var stored, write, meta := s.client.stored, e.command.write, e.command.meta;
    forall w | w in stored ensures w.id != meta.id && w.createdAt <= meta.now {
      assert Accounted(s, w);
    }
    AppendKeepsWellFormed(stored, write, meta);
    TrimKeepsOrdered(AppendWrite(stored, write, meta));
  }

  lemma PendingAfterEnqueue(s: System, e: Event, b: string)
    requires Sound(s) && Legal(s, e) && WithinCap(s, e) && e.Local? && e.command.Enqueue?
    ensures PendingPatch(Next(s, e).client.stored, b) ==
            if EnqueuesPatch(e, b)
            then Some(AfterPatch(PendingPatch(s.client.stored, b), e.command.write.payload.patch))
            else PendingPatch(s.client.stored, b)
  {
    hide WriteQueueCore.Extend;
    hide WriteQueueCore.PendingPatch;
    StoredAfterEnqueue(s, e);
    ExtendPatch(s.client.stored, e.command.write, e.command.meta, b);
  }

  lemma EnqueueCell(s: System, e: Event, b: string, x: Cell)
    requires CellInv(s, b, x) && Legal(s, e) && WithinCap(s, e) && KeepsCell(s, e, b, x)
    requires e.Local? && e.command.Enqueue?
    ensures CellInv(Next(s, e), b, x)
    ensures Shown(Next(s, e), b, x) == Replayed(Shown(s, b, x), e, b, x)
  {
    hide Sound;
    hide Effect;
    hide WriteQueueCore.PendingPatch;
    hide Execute;
    var t := Next(s, e);
    StepKeepsSound(s, e);
    PendingAfterEnqueue(s, e, b);
    AtOverride(CardOf(s, b), PendingEffect(s.client.stored, b), x);
    AtOverride(CardOf(s, b), PendingEffect(t.client.stored, b), x);
    if EnqueuesPatch(e, b) && PendingPatch(s.client.stored, b).Some? {
      MergedCell(PendingPatch(s.client.stored, b).value, e.command.write.payload.patch, x);
    }
  }

  lemma PendingAfterDrop(stored: seq<QueuedWrite>, c: string, b: string)
    requires WellFormed(stored) && c != b
    ensures PendingPatch(Execute(stored, Drop(c)), b) == PendingPatch(stored, b)
  {
    var next := WithoutJobCardPatch(stored, c);
    OrderedFilter(stored, (w: QueuedWrite) => !IsPatchFor(w, c));
    TrimKeepsOrdered(next);
    SamePatches(stored, next, b);
  }

  lemma DropCell(s: System, e: Event, b: string, x: Cell)
    requires CellInv(s, b, x) && e.Local? && e.command.Drop? && e.command.bookingId != b
    ensures CellInv(Next(s, e), b, x) && Shown(Next(s, e), b, x) == Shown(s, b, x)
  {
    hide Effect;
    hide Execute;
    hide FlightSound;
    hide WriteQueueCore.PendingPatch;
    StepKeepsSound(s, e);
    PendingAfterDrop(s.client.stored, e.command.bookingId, b);
  }

  lemma StartCell(s: System, b: string, x: Cell)
    requires CellInv(s, b, x)
    ensures CellInv(Next(s, StartFlush), b, x) && Shown(Next(s, StartFlush), b, x) == Shown(s, b, x)
  {
    hide Effect;
    hide WriteQueueCore.PendingPatch;
    StepKeepsSound(s, StartFlush);
    var stored := s.client.stored;
    forall j | 0 <= j < |stored| && IsPatchFor(stored[j], b)
      ensures PendingPatch(stored, b) == Some(stored[j].payload.patch)
    {
      PatchMember(stored, stored[j], b);
    }
  }

  /** Patches of one booking stand at one place of the snapshot only. */
  lemma OnePatch(list: seq<QueuedWrite>, i: nat, j: nat, b: string)
    requires Ordered(list) && i < |list| && j < |list| && IsPatchFor(list[i], b) && IsPatchFor(list[j], b)
    ensures i == j
  {
    PendingPatchIs(list, b, i);
    PendingPatchIs(list, b, j);
  }

  lemma CardAfterSend(s: System, reply: Reply, applied: bool, b: string)
    requires Sending(s.client)
    ensures var w, t := Current(s.client), Next(s, Perform(reply, applied));
            CardOf(t, b) == if IsPatchFor(w, b) && (applied || reply.Accepted?)
                            then Apply(CardOf(s, b), w.payload.patch) else CardOf(s, b)
  {
    hide JobCards.Apply;
    hide ClientNext;
    hide SettledAfter;
  }

  lemma PerformShown(s: System, reply: Reply, applied: bool, b: string, x: Cell)
    requires CellInv(s, b, x) && Sending(s.client)
    ensures Shown(Next(s, Perform(reply, applied)), b, x) == Shown(s, b, x)
  {
    hide Effect;
    hide Sound;
    hide Sent;
    hide Settle;
    var w, t := Current(s.client), Next(s, Perform(reply, applied));
    CardAfterSend(s, reply, applied, b);
    AtOverride(CardOf(s, b), PendingEffect(s.client.stored, b), x);
    AtOverride(CardOf(t, b), PendingEffect(s.client.stored, b), x);
    if IsPatchFor(w, b) {
      AtOverride(CardOf(s, b), Effect(w.payload.patch), x);
    }
  }

  lemma PerformSentShown(s: System, reply: Reply, applied: bool, b: string, x: Cell)
    requires Sound(s) && SentShown(s, b, x) && Sending(s.client) && !GivesUpOn(s, Perform(reply, applied), b)
    ensures SentShown(Next(s, Perform(reply, applied)), b, x)
  {
    hide Effect;
    hide Sent;
    hide SettledExactly;
    hide KeptFromPrefix;
    var f, w, t := s.client.flight.value, Current(s.client), Next(s, Perform(reply, applied));
    CardAfterSend(s, reply, applied, b);
    forall j | 0 <= j < t.client.flight.value.next <= |f.snapshot| && IsPatchFor(f.snapshot[j], b)
               && f.snapshot[j].id in t.settled && x in Effect(f.snapshot[j].payload.patch)
      ensures At(CardOf(t, b), x) == Some(Effect(f.snapshot[j].payload.patch)[x])
    {
      SentOrNow(s, reply, j);
      if IsPatchFor(w, b) {
        OnePatch(f.snapshot, j, f.next, b);
        AtOverride(CardOf(s, b), Effect(w.payload.patch), x);
      }
    }
  }

  /** A settled entry was settled before this reply, or is the one this reply settles. */
  lemma SentOrNow(s: System, reply: Reply, j: nat)
    requires Sound(s) && Sending(s.client)
    requires j < Settle(s.client.flight.value, reply).next <= |s.client.flight.value.snapshot|
    requires s.client.flight.value.snapshot[j].id in SettledAfter(s.client.flight.value, s.settled, reply)
    ensures var f := s.client.flight.value;
            || (j < f.next && f.snapshot[j].id in s.settled)
            || (j == f.next && Settles(f.snapshot[j], reply))
  {
    var f := s.client.flight.value;
    if f.next <= j {
      UnsentIsOpen(f, s.settled, j);
      if f.next < j {
        DistinctIds(f.snapshot, f.next, j);
      }
    } else {
      DistinctIds(f.snapshot, j, f.next);
    }
  }

  lemma PerformCell(s: System, reply: Reply, applied: bool, b: string, x: Cell)
    requires CellInv(s, b, x) && !GivesUpOn(s, Perform(reply, applied), b)
    ensures CellInv(Next(s, Perform(reply, applied)), b, x)
    ensures Shown(Next(s, Perform(reply, applied)), b, x) == Shown(s, b, x)
  {
    hide Effect;
    hide Sound;
    hide Sent;
    StepKeepsSound(s, Perform(reply, applied));
    if Sending(s.client) {
      PerformShown(s, reply, applied, b, x);
      PerformSentShown(s, reply, applied, b, x);
    }
  }

  function Merged(s: System): seq<QueuedWrite>
    requires s.client.flight.Some?
  {
    Reconcile(s.client.flight.value.snapshot, s.client.flight.value.kept, s.client.stored)
  }

  lemma MergedIsStored(s: System)
    requires Sound(s) && s.client.flight.Some? && !Sending(s.client)
    ensures Next(s, FinishFlush).client.stored == Merged(s) && Ordered(Merged(s))
    ensures KeptFrom(s.client.flight.value.snapshot, s.client.flight.value.kept)
  {
    var f := s.client.flight.value;
    MergedInPlace(s);
    ReconcileOrdered(f.snapshot, f.kept, s.client.stored);
  }

  /** Every entry after the merge is an entry from before it, up to its retry counter. */
  lemma MergedOrigin(s: System, r: QueuedWrite)
    requires Sound(s) && s.client.flight.Some? && !Sending(s.client) && r in Merged(s)
    ensures exists q :: q in s.client.stored && Body(q) == Body(r)
  {
    var f := s.client.flight.value;
    MergedIsStored(s);
    ReconcileOrigin(f.snapshot, f.kept, s.client.stored, r);
  }

  /** A stored entry is found after the merge, up to its retry counter, or was sent unchanged. */
  lemma MergedOrSettled(s: System, q: QueuedWrite)
    requires Sound(s) && s.client.flight.Some? && !Sending(s.client) && q in s.client.stored
    ensures || (exists r :: r in Merged(s) && Body(r) == Body(q))
            || (exists j :: 0 <= j < |s.client.flight.value.snapshot|
                  && s.client.flight.value.snapshot[j] == q && q.id in s.settled)
  {
    if forall r :: r in Merged(s) ==> Body(r) != Body(q) {
      GoneMeansSettled(s, q);
    }
  }

  /** After the merge the pending patch of `b` is the old one, or it was sent and is gone. */
  lemma PendingAfterFinish(s: System, b: string)
    requires Sound(s) && s.client.flight.Some? && !Sending(s.client)
    ensures var f, after := s.client.flight.value, PendingPatch(Next(s, FinishFlush).client.stored, b);
            || after == PendingPatch(s.client.stored, b)
            || (after == None && exists j :: 0 <= j < |f.snapshot| && IsPatchFor(f.snapshot[j], b)
                                  && f.snapshot[j].id in s.settled
                                  && PendingPatch(s.client.stored, b) == Some(f.snapshot[j].payload.patch))
  {
    hide Merged;
    hide Reconcile;
    var stored := s.client.stored;
    MergedIsStored(s);
    if PendingPatch(Merged(s), b).Some? {
      var r := Merged(s)[PatchIndex(Merged(s), b)];
      MergedOrigin(s, r);
      var q :| q in stored && Body(q) == Body(r);
      PatchMember(stored, q, b);
    } else if PendingPatch(stored, b).Some? {
      NoPendingPatch(Merged(s), b);
      MergedOrSettled(s, stored[PatchIndex(stored, b)]);
    }
  }

  /** An entry with no trace in the merged list was in the snapshot, unchanged, and settled. */
  lemma GoneMeansSettled(s: System, q: QueuedWrite)
    requires Sound(s) && s.client.flight.Some? && !Sending(s.client) && q in s.client.stored
    requires var f := s.client.flight.value;
             forall r :: r in Reconcile(f.snapshot, f.kept, s.client.stored) ==> Body(r) != Body(q)
    ensures var f := s.client.flight.value;
            exists j :: 0 <= j < |f.snapshot| && f.snapshot[j] == q && f.snapshot[j].id in s.settled
  {
    var f, stored := s.client.flight.value, s.client.stored;
    KeptIsFromSnapshot(f, s.settled);
    if Survives(f.snapshot, f.kept, q) {
      ReconcileReaches(f.snapshot, f.kept, stored, q);
    }
    var j :| 0 <= j < |f.snapshot| && f.snapshot[j] == q;
    assert f.snapshot[j].id in s.settled <==> !KeptHas(f.kept, f.snapshot[j].id);
  }

  lemma {:induction false} ReconcileReaches(snapshot: seq<QueuedWrite>, kept: seq<QueuedWrite>, latest: seq<QueuedWrite>, q: QueuedWrite)
    requires Ordered(snapshot) && KeptFrom(snapshot, kept) && q in latest && Survives(snapshot, kept, q)
    ensures exists r :: r in Reconcile(snapshot, kept, latest) && Body(r) == Body(q)
  {
    var n := |latest| - 1;
    ReconcileOneExact(snapshot, kept, latest[n]);
    var one := ReconcileOne(snapshot, kept, latest[n]);
    assert Reconcile(snapshot, kept, latest) == Reconcile(snapshot, kept, latest[..n]) + one;
    if q == latest[n] {
      assert one[0] in Reconcile(snapshot, kept, latest);
    } else {
      ReconcileReaches(snapshot, kept, latest[..n], q);
    }
  }

  lemma FinishCell(s: System, b: string, x: Cell)
    requires CellInv(s, b, x)
    ensures CellInv(Next(s, FinishFlush), b, x) && Shown(Next(s, FinishFlush), b, x) == Shown(s, b, x)
  {
    hide Effect;
    hide WriteQueueCore.PendingPatch;
    hide Reconcile;
    StepKeepsSound(s, FinishFlush);
    if s.client.flight.Some? && !Sending(s.client) {
      PendingAfterFinish(s, b);
      AtOverride(CardOf(s, b), PendingEffect(s.client.stored, b), x);
      AtOverride(CardOf(s, b), PendingEffect(Next(s, FinishFlush).client.stored, b), x);
    }
  }

  lemma CellStep(s: System, e: Event, b: string, x: Cell)
    requires CellInv(s, b, x) && Legal(s, e) && Undisturbed(s, e, b) && KeepsCell(s, e, b, x)
    ensures CellInv(Next(s, e), b, x) && Shown(Next(s, e), b, x) == Replayed(Shown(s, b, x), e, b, x)
  {
    match e
    case Local(command) =>
      if command.Enqueue? {
        EnqueueCell(s, e, b, x);
      } else {
        DropCell(s, e, b, x);
      }
    case DirectSave(_, _) => ElsewhereCell(s, e, b, x);
    case StartFlush => StartCell(s, b, x);
    case Perform(reply, applied) => PerformCell(s, reply, applied, b, x);
    case FinishFlush => FinishCell(s, b, x);
    case Crash => ElsewhereCell(s, e, b, x);
  }

  lemma ElsewhereCell(s: System, e: Event, b: string, x: Cell)
    requires CellInv(s, b, x) && Legal(s, e) && ((e.DirectSave? && e.bookingId != b) || e.Crash?)
    ensures CellInv(Next(s, e), b, x) && Shown(Next(s, e), b, x) == Shown(s, b, x)
  {
    hide Effect;
    hide Sound;
    StepKeepsSound(s, e);
    assert CardOf(Next(s, e), b) == CardOf(s, b);
  }

  // ---------------------------------------------------------------- whole runs

  /** The job-card patches enqueued for `b`, in order. */
  function PatchesIn(events: seq<Event>, b: string): seq<Patch> {
    if events == [] then []
    else
      var e := events[|events| - 1];
      PatchesIn(events[..|events| - 1], b)
      + if EnqueuesPatch(e, b) then [e.command.write.payload.patch] else []
  }

  ghost predicate UndisturbedRun(s: System, events: seq<Event>, b: string) {
    forall i :: 0 <= i < |events| ==> Undisturbed(Run(s, events[..i]), events[i], b)
  }

  ghost predicate KeepsCellRun(s: System, events: seq<Event>, b: string, x: Cell) {
    forall i :: 0 <= i < |events| ==> KeepsCell(Run(s, events[..i]), events[i], b, x)
  }

  /** Whenever a patch of `b` is coalesced, the newer one covers the queued one. */
  ghost predicate CoveringRun(s: System, events: seq<Event>, b: string) {
    forall i :: 0 <= i < |events| && EnqueuesPatch(events[i], b) ==>
      var pending := PendingPatch(Run(s, events[..i]).client.stored, b);
      pending.Some? ==> Covers(pending.value, events[i].command.write.payload.patch)
  }

  lemma RunPrefix(s: System, events: seq<Event>, b: string, x: Cell)
    requires events != [] && LegalRun(s, events) && UndisturbedRun(s, events, b) && KeepsCellRun(s, events, b, x)
    ensures var init, last := events[..|events| - 1], events[|events| - 1];
            && LegalRun(s, init) && UndisturbedRun(s, init, b) && KeepsCellRun(s, init, b, x)
            && Legal(Run(s, init), last) && Undisturbed(Run(s, init), last, b) && KeepsCell(Run(s, init), last, b, x)
  {
    hide Run;
    hide Undisturbed;
    hide KeepsCell;
    LegalPrefix(s, events);
    var n := |events| - 1;
    forall i | 0 <= i < n
      ensures Undisturbed(Run(s, events[..n][..i]), events[..n][i], b)
      ensures KeepsCell(Run(s, events[..n][..i]), events[..n][i], b, x)
    {
      assert events[..n][..i] == events[..i];
    }
  }

  lemma ReplayedSnoc(card: Card, patches: seq<Patch>, e: Event, b: string, x: Cell)
    ensures At(ReplayPatches(card, if EnqueuesPatch(e, b) then patches + [e.command.write.payload.patch] else patches), x)
            == Replayed(At(ReplayPatches(card, patches), x), e, b, x)
  {
    if EnqueuesPatch(e, b) {
      ReplaySnoc(card, patches, e.command.write.payload.patch);
      AtOverride(ReplayPatches(card, patches), Effect(e.command.write.payload.patch), x);
    }
  }

  lemma StartIsConvergent(server: map<string, Site>, b: string, x: Cell)
    ensures CellInv(Start(server), b, x)
    ensures Shown(Start(server), b, x) == At(SiteOf(server, b).card, x)
  {
    PendingPatchNone(Start(server).client.stored, b);
    AtOverride(SiteOf(server, b).card, map[], x);
  }

  lemma {:induction false} CellConverges(server: map<string, Site>, events: seq<Event>, b: string, x: Cell)
    requires LegalRun(Start(server), events)
    requires UndisturbedRun(Start(server), events, b)
    requires KeepsCellRun(Start(server), events, b, x)
    ensures CellInv(Run(Start(server), events), b, x)
    ensures Shown(Run(Start(server), events), b, x)
         == At(ReplayPatches(SiteOf(server, b).card, PatchesIn(events, b)), x)
  {
    hide CellInv;
    hide ReplayPatches;
    hide Shown;
    hide Replayed;
    if events == [] {
      StartIsConvergent(server, b, x);
      assert ReplayPatches(SiteOf(server, b).card, []) == SiteOf(server, b).card by { ReplayNone(SiteOf(server, b).card); }
    } else {
      var init, e := events[..|events| - 1], events[|events| - 1];
      RunPrefix(Start(server), events, b, x);
      CellConverges(server, init, b, x);
      CellStep(Run(Start(server), init), e, b, x);
      ReplayedSnoc(SiteOf(server, b).card, PatchesIn(init, b), e, b, x);
      assert !EnqueuesPatch(e, b) ==> PatchesIn(events, b) == PatchesIn(init, b);
    }
  }

  lemma CoveringKeepsCell(s: System, events: seq<Event>, b: string, x: Cell)
    requires CoveringRun(s, events, b)
    ensures KeepsCellRun(s, events, b, x)
  {
    hide Run;
    hide Effect;
    hide WriteQueueCore.PendingPatch;
    forall i | 0 <= i < |events| ensures KeepsCell(Run(s, events[..i]), events[i], b, x) {
      var pending := PendingPatch(Run(s, events[..i]).client.stored, b);
      if EnqueuesPatch(events[i], b) && pending.Some? {
        CoversKeys(pending.value, events[i].command.write.payload.patch);
      }
    }
  }

  /**
   * Convergence. However enqueues, flush steps, sends applied but reported as
   * failed, and crashes interleave, the server's card for a booking overridden
   * by the pending patch is the replay of all patches enqueued for it; with
   * nothing pending the card itself is that replay. Assumed: the cap is not
   * reached, no write of the booking is given up, dropped or bypassed by a
   * direct save, and a patch coalesced into a queued one covers it.
   */
  lemma JobCardConverges(server: map<string, Site>, events: seq<Event>, b: string)
    requires LegalRun(Start(server), events)
    requires UndisturbedRun(Start(server), events, b)
    requires CoveringRun(Start(server), events, b)
    ensures var s := Run(Start(server), events);
            var replay := ReplayPatches(SiteOf(server, b).card, PatchesIn(events, b));
            && CardOf(s, b) + PendingEffect(s.client.stored, b) == replay
            && (PendingPatch(s.client.stored, b) == None ==> CardOf(s, b) == replay)
  {
    hide Run;
    hide ReplayPatches;
    hide WriteQueueCore.PendingPatch;
    var s := Run(Start(server), events);
    var replay := ReplayPatches(SiteOf(server, b).card, PatchesIn(events, b));
    forall x ensures At(CardOf(s, b) + PendingEffect(s.client.stored, b), x) == At(replay, x) {
      CoveringKeepsCell(Start(server), events, b, x);
      CellConverges(server, events, b, x);
    }
    SameCells(CardOf(s, b) + PendingEffect(s.client.stored, b), replay);
    BlankTail(CardOf(s, b));
  }

  lemma BlankTail(card: Card)
    ensures card + map[] == card
  {
  }

  /** Fields the server replaces as a whole converge whatever readings and answers the patches carry. */
  lemma PlainFieldConverges(server: map<string, Site>, events: seq<Event>, b: string, f: string)
    requires LegalRun(Start(server), events)
    requires UndisturbedRun(Start(server), events, b)
    ensures var s := Run(Start(server), events);
            At(CardOf(s, b) + PendingEffect(s.client.stored, b), Field(f))
            == At(ReplayPatches(SiteOf(server, b).card, PatchesIn(events, b)), Field(f))
  {
    forall i | 0 <= i < |events|
      ensures KeepsCell(Run(Start(server), events[..i]), events[i], b, Field(f))
    {
      FieldKept(Run(Start(server), events[..i]), events[i], b, f);
    }
    CellConverges(server, events, b, Field(f));
  }

  lemma FieldKept(s: System, e: Event, b: string, f: string)
    ensures KeepsCell(s, e, b, Field(f))
  {
    hide Effect;
    hide WriteQueueCore.PendingPatch;
    var pending := PendingPatch(s.client.stored, b);
    if EnqueuesPatch(e, b) && pending.Some? {
      MergeEffect(pending.value, e.command.write.payload.patch);
    }
  }

  // ---------------------------------------------------------------- the exact condition, on the enqueued patches alone

  /** All patches merged into one still write the cell if any of them did. */
  ghost predicate CellKept(patches: seq<Patch>, x: Cell) {
    x in Effect(MergeAll(patches)) || forall a :: a in patches ==> x !in Effect(a)
  }

  /** A pending patch writes the cell only if some enqueued patch did. */
  ghost predicate PendingWritten(s: System, b: string, x: Cell, patches: seq<Patch>) {
    x in PendingEffect(s.client.stored, b) ==> exists a :: a in patches && x in Effect(a)
  }

  /**
   * What every undisturbed run keeps of one cell. The cell shows the replay as
   * soon as the patches so far keep it, whatever happened to it before.
   */
  ghost predicate HistoryInv(s: System, card: Card, b: string, x: Cell, patches: seq<Patch>) {
    && Sound(s) && SentShown(s, b, x) && PendingWritten(s, b, x, patches)
    && (CellKept(patches, x) ==>
          UnsentPending(s, b, x) && Shown(s, b, x) == At(ReplayPatches(card, patches), x))
  }

  lemma SentShownStep(s: System, e: Event, b: string, x: Cell)
    requires Sound(s) && SentShown(s, b, x) && Legal(s, e) && Undisturbed(s, e, b)
    ensures SentShown(Next(s, e), b, x)
  {
    hide Effect;
    hide Sound;
    hide Execute;
    hide Reconcile;
    match e
    case Local(_) =>
    case DirectSave(_, _) => assert CardOf(Next(s, e), b) == CardOf(s, b);
    case StartFlush =>
    case Perform(reply, applied) =>
      if Sending(s.client) {
        PerformSentShown(s, reply, applied, b, x);
      }
    case FinishFlush =>
    case Crash =>
  }

  /** An undisturbed step other than an enqueue of a patch of `b` gives nothing new to send for `b`. */
  lemma PendingShrinks(s: System, e: Event, b: string)
    requires Sound(s) && Legal(s, e) && Undisturbed(s, e, b) && !EnqueuesPatch(e, b)
    ensures PendingPatch(Next(s, e).client.stored, b) == PendingPatch(s.client.stored, b)
            || PendingPatch(Next(s, e).client.stored, b) == None
  {
    hide WriteQueueCore.PendingPatch;
    hide Execute;
    hide Reconcile;
    match e
    case Local(command) =>
      if command.Enqueue? {
        PendingAfterEnqueue(s, e, b);
      } else {
        PendingAfterDrop(s.client.stored, command.bookingId, b);
      }
    case DirectSave(_, _) =>
    case StartFlush =>
    case Perform(_, _) =>
    case FinishFlush =>
      if s.client.flight.Some? && !Sending(s.client) {
        PendingAfterFinish(s, b);
      }
    case Crash =>
  }

  /** A step that enqueues nothing for `b` keeps the invariant. */
  lemma OtherStep(s: System, e: Event, card: Card, b: string, x: Cell, patches: seq<Patch>)
    requires HistoryInv(s, card, b, x, patches) && Legal(s, e) && Undisturbed(s, e, b) && !EnqueuesPatch(e, b)
    ensures HistoryInv(Next(s, e), card, b, x, patches)
  {
    hide Effect;
    hide Sound;
    hide Next;
    hide ReplayPatches;
    hide CellKept;
    hide UnsentPending;
    hide SentShown;
    hide Shown;
    hide Undisturbed;
    hide WriteQueueCore.PendingPatch;
    StepKeepsSound(s, e);
    SentShownStep(s, e, b, x);
    PendingShrinks(s, e, b);
    if CellKept(patches, x) {
      CellStep(s, e, b, x);
    }
  }

  /** An enqueued patch that writes the cell makes it right again, whatever coalescing lost before. */
  lemma RewriteCell(s: System, e: Event, b: string, x: Cell)
    requires Sound(s) && SentShown(s, b, x) && Legal(s, e) && WithinCap(s, e) && EnqueuesPatch(e, b)
    requires x in Effect(e.command.write.payload.patch)
    ensures UnsentPending(Next(s, e), b, x)
    ensures Shown(Next(s, e), b, x) == Some(Effect(e.command.write.payload.patch)[x])
  {
    hide Sound;
    hide Effect;
    hide Execute;
    hide WriteQueueCore.PendingPatch;
    var t, patch := Next(s, e), e.command.write.payload.patch;
    PendingAfterEnqueue(s, e, b);
    AtOverride(CardOf(s, b), PendingEffect(t.client.stored, b), x);
    if PendingPatch(s.client.stored, b).Some? {
      MergeEffect(PendingPatch(s.client.stored, b).value, patch);
    }
  }

  /** A patch displaces a cell from every patch it is merged onto, or from none. */
  lemma DisplacesAlike(m: Patch, q: Patch, p: Patch, x: Cell)
    requires x !in Effect(p) && x in Effect(Merge(m, p))
    ensures x in Effect(m) && (x in Effect(q) ==> x in Effect(Merge(q, p)))
  {
    hide Effect;
    EffectAt(p, x);
    EffectAt(m, x);
    EffectAt(q, x);
    EffectAt(Merge(m, p), x);
    EffectAt(Merge(q, p), x);
  }

  /** If the patches and one more keep a cell that the last one does not write, it was kept before and stays so. */
  lemma KeptBefore(s: System, e: Event, b: string, x: Cell, patches: seq<Patch>)
    requires EnqueuesPatch(e, b) && PendingWritten(s, b, x, patches)
    requires var patch := e.command.write.payload.patch;
             x !in Effect(patch) && CellKept(patches + [patch], x)
    ensures CellKept(patches, x) && KeepsCell(s, e, b, x)
  {
    hide Effect;
    hide WriteQueueCore.PendingPatch;
    var patch := e.command.write.payload.patch;
    MergeAllSnoc(patches, patch);
    if x in Effect(MergeAll(patches + [patch])) {
      var q := if PendingPatch(s.client.stored, b).Some? then PendingPatch(s.client.stored, b).value else patch;
      DisplacesAlike(MergeAll(patches), q, patch, x);
    } else {
      forall a | a in patches ensures x !in Effect(a) {
        assert a in patches + [patch];
      }
    }
  }

  lemma PatchStep(s: System, e: Event, card: Card, b: string, x: Cell, patches: seq<Patch>)
    requires HistoryInv(s, card, b, x, patches) && Legal(s, e) && Undisturbed(s, e, b) && EnqueuesPatch(e, b)
    ensures HistoryInv(Next(s, e), card, b, x, patches + [e.command.write.payload.patch])
  {
    hide Effect;
    hide Sound;
    hide Next;
    hide ReplayPatches;
    hide CellKept;
    hide UnsentPending;
    hide SentShown;
    hide Shown;
    hide PendingWritten;
    hide WriteQueueCore.Extend;
    var patch := e.command.write.payload.patch;
    StepKeepsSound(s, e);
    SentShownStep(s, e, b, x);
    PendingWrittenStep(s, e, b, x, patches);
    ReplayedSnoc(card, patches, e, b, x);
    if CellKept(patches + [patch], x) {
      if x in Effect(patch) {
        RewriteCell(s, e, b, x);
      } else {
        KeptBefore(s, e, b, x, patches);
        CellStep(s, e, b, x);
      }
    }
  }

  lemma PendingWrittenStep(s: System, e: Event, b: string, x: Cell, patches: seq<Patch>)
    requires Sound(s) && PendingWritten(s, b, x, patches) && Legal(s, e) && WithinCap(s, e) && EnqueuesPatch(e, b)
    ensures PendingWritten(Next(s, e), b, x, patches + [e.command.write.payload.patch])
  {
    hide Effect;
    hide Next;
    hide Sound;
    hide WriteQueueCore.Extend;
    hide WriteQueueCore.PendingPatch;
    var patch := e.command.write.payload.patch;
    PendingAfterEnqueue(s, e, b);
    if x in Effect(patch) {
      assert patch in patches + [patch];
    } else {
      if PendingPatch(s.client.stored, b).Some? {
        MergeEffect(PendingPatch(s.client.stored, b).value, patch);
      }
      if x in PendingEffect(s.client.stored, b) {
        var a :| a in patches && x in Effect(a);
        assert a in patches + [patch];
      }
    }
  }

  lemma HistoryAtStart(server: map<string, Site>, b: string, x: Cell)
    ensures HistoryInv(Start(server), SiteOf(server, b).card, b, x, [])
  {
    StartIsConvergent(server, b, x);
    ReplayNone(SiteOf(server, b).card);
    PendingPatchNone(Start(server).client.stored, b);
  }

  lemma AlwaysKept(s: System, events: seq<Event>, b: string)
    ensures KeepsCellRun(s, events, b, Field(""))
  {
    forall i | 0 <= i < |events| ensures KeepsCell(Run(s, events[..i]), events[i], b, Field("")) {
      FieldKept(Run(s, events[..i]), events[i], b, "");
    }
  }

  lemma {:induction false} RunKeepsHistory(server: map<string, Site>, events: seq<Event>, b: string, x: Cell)
    requires LegalRun(Start(server), events) && UndisturbedRun(Start(server), events, b)
    ensures HistoryInv(Run(Start(server), events), SiteOf(server, b).card, b, x, PatchesIn(events, b))
  {
    hide HistoryInv;
    hide Next;
    if events == [] {
      HistoryAtStart(server, b, x);
    } else {
      var init, e, card := events[..|events| - 1], events[|events| - 1], SiteOf(server, b).card;
      AlwaysKept(Start(server), events, b);
      RunPrefix(Start(server), events, b, Field(""));
      RunKeepsHistory(server, init, b, x);
      if EnqueuesPatch(e, b) {
        PatchStep(Run(Start(server), init), e, card, b, x, PatchesIn(init, b));
      } else {
        OtherStep(Run(Start(server), init), e, card, b, x, PatchesIn(init, b));
        assert PatchesIn(events, b) == PatchesIn(init, b);
      }
    }
  }

  /** The booking's card, overridden by what is pending for it, is the replay of all its patches. */
  ghost predicate Converged(server: map<string, Site>, events: seq<Event>, b: string) {
    var s := Run(Start(server), events);
    CardOf(s, b) + PendingEffect(s.client.stored, b) == ReplayPatches(SiteOf(server, b).card, PatchesIn(events, b))
  }

  lemma CoveredCellKept(patches: seq<Patch>, x: Cell)
    requires AllCovered(patches)
    ensures CellKept(patches, x)
  {
    hide Effect;
    hide Covers;
    hide ReplayPatches;
    MergeAllIsReplayIff(patches);
    ReplayKeys(patches);
  }

  lemma CoveredRunConverges(server: map<string, Site>, events: seq<Event>, b: string)
    requires LegalRun(Start(server), events) && UndisturbedRun(Start(server), events, b)
    requires AllCovered(PatchesIn(events, b))
    ensures Converged(server, events, b)
  {
    hide Run;
    hide ReplayPatches;
    hide AllCovered;
    hide CellKept;
    hide WriteQueueCore.PendingPatch;
    var s := Run(Start(server), events);
    var shown, replay := CardOf(s, b) + PendingEffect(s.client.stored, b),
                         ReplayPatches(SiteOf(server, b).card, PatchesIn(events, b));
    forall x ensures At(shown, x) == At(replay, x) {
      CoveredCellKept(PatchesIn(events, b), x);
      RunKeepsHistory(server, events, b, x);
    }
    SameCells(shown, replay);
  }

  // ---------------------------------------------------------------- the run that only enqueues

  function FreshId(n: nat): string {
    seq(n, _ => 'w')
  }

  /** The patches enqueued offline one after another, and nothing else. */
  function Offline(patches: seq<Patch>, b: string): seq<Event> {
    seq(|patches|, i requires 0 <= i < |patches| =>
      Local(Enqueue(NewWrite(b, JobCardPatch(patches[i])), Meta(FreshId(i), i))))
  }

  lemma OfflineSnoc(patches: seq<Patch>, b: string)
    requires patches != []
    ensures var n := |patches| - 1;
            Offline(patches, b) == Offline(patches[..n], b)
              + [Local(Enqueue(NewWrite(b, JobCardPatch(patches[n])), Meta(FreshId(n), n)))]
  {
  }

  /** The state of that run: one entry at most, holding all patches merged. */
  ghost predicate OfflineState(s: System, b: string, patches: seq<Patch>) {
    && Sound(s) && s.server == map[] && s.clock <= |patches|
    && (forall id :: id in s.used ==> |id| < |patches|)
    && |s.client.stored| == (if patches == [] then 0 else 1) && s.client.flight == None
    && (forall w :: w in s.client.stored ==> w.attempts == 0)
    && PendingPatch(s.client.stored, b) == (if patches == [] then None else Some(MergeAll(patches)))
  }

  lemma OfflineFits(s: System, b: string, patches: seq<Patch>, patch: Patch)
    requires OfflineState(s, b, patches)
    ensures var e := Local(Enqueue(NewWrite(b, JobCardPatch(patch)), Meta(FreshId(|patches|), |patches|)));
            && Legal(s, e) && WithinCap(s, e) && |Extend(s.client.stored, e.command.write, e.command.meta)| == 1
  {
    hide Sound;
  }

  lemma OfflineStep(s: System, b: string, patches: seq<Patch>, patch: Patch)
    requires OfflineState(s, b, patches)
    ensures var e := Local(Enqueue(NewWrite(b, JobCardPatch(patch)), Meta(FreshId(|patches|), |patches|)));
            Legal(s, e) && Undisturbed(s, e, b) && OfflineState(Next(s, e), b, patches + [patch])
  {
    hide Sound;
    hide WriteQueueCore.Extend;
    hide WriteQueueCore.PendingPatch;
    var e := Local(Enqueue(NewWrite(b, JobCardPatch(patch)), Meta(FreshId(|patches|), |patches|)));
    OfflineFits(s, b, patches, patch);
    StepKeepsSound(s, e);
    StoredAfterEnqueue(s, e);
    PendingAfterEnqueue(s, e, b);
    ExtendEntries(s.client.stored, e.command.write, e.command.meta);
    MergedOnto(patches, e.command.write, b);
  }

  lemma OfflineStart(b: string)
    ensures OfflineState(Start(map[]), b, [])
  {
    PendingPatchNone(Start(map[]).client.stored, b);
  }

  lemma ExtendRun(s: System, events: seq<Event>, e: Event, b: string)
    requires LegalRun(s, events) && UndisturbedRun(s, events, b)
    requires Legal(Run(s, events), e) && Undisturbed(Run(s, events), e, b)
    ensures LegalRun(s, events + [e]) && UndisturbedRun(s, events + [e], b)
    ensures Run(s, events + [e]) == Next(Run(s, events), e)
  {
    hide Legal;
    hide Undisturbed;
    hide Next;
    var all := events + [e];
    assert all[..|events|] == events;
    forall i | 0 <= i < |all| ensures Legal(Run(s, all[..i]), all[i]) && Undisturbed(Run(s, all[..i]), all[i], b) {
      if i < |events| {
        assert all[..i] == events[..i];
      }
    }
  }

  lemma PatchesSnoc(events: seq<Event>, e: Event, b: string)
    ensures PatchesIn(events + [e], b)
         == PatchesIn(events, b) + if EnqueuesPatch(e, b) then [e.command.write.payload.patch] else []
  {
    assert (events + [e])[..|events|] == events;
  }

  lemma {:induction false} OfflineRun(b: string, patches: seq<Patch>)
    ensures var events := Offline(patches, b);
            && LegalRun(Start(map[]), events) && UndisturbedRun(Start(map[]), events, b)
            && PatchesIn(events, b) == patches && OfflineState(Run(Start(map[]), events), b, patches)
  {
    hide OfflineState;
    hide Undisturbed;
    hide Legal;
    hide Next;
    if patches == [] {
      assert Offline(patches, b) == [];
      OfflineStart(b);
    } else {
      var n := |patches| - 1;
      var init, events := patches[..n], Offline(patches[..n], b);
      OfflineRun(b, init);
      OfflineSnoc(patches, b);
      assert patches == init + [patches[n]];
      var e := Local(Enqueue(NewWrite(b, JobCardPatch(patches[n])), Meta(FreshId(n), n)));
      OfflineStep(Run(Start(map[]), events), b, init, patches[n]);
      ExtendRun(Start(map[]), events, e, b);
      PatchesSnoc(events, e, b);
    }
  }

  lemma UncoveredOffline(b: string, patches: seq<Patch>)
    requires Converged(map[], Offline(patches, b), b)
    ensures AllCovered(patches)
  {
    hide Run;
    hide Offline;
    hide Sound;
    hide AllCovered;
    hide ReplayPatches;
    hide WriteQueueCore.PendingPatch;
    OfflineRun(b, patches);
    EmptyPatchWritesNothing();
    BlankOverride(Effect(MergeAll(patches)));
    MergeAllIsReplayIff(patches);
  }

  /**
   * Convergence, exactly. Over all servers and all undisturbed runs that
   * enqueue these patches for a booking, however sends, lost replies, crashes
   * and other bookings' writes interleave, the card overridden by the pending
   * patch is the replay of the patches, if and only if merging all of them into
   * one loses no reading and no answer. What counts is the whole sequence: an
   * edit displaced by one patch and brought again by a later one does no harm.
   */
  lemma ConvergenceIff(b: string, patches: seq<Patch>)
    ensures (forall server: map<string, Site>, events: seq<Event> ::
               LegalRun(Start(server), events) && UndisturbedRun(Start(server), events, b)
               && PatchesIn(events, b) == patches
               ==> Converged(server, events, b))
            <==> AllCovered(patches)
  {
    hide Converged;
    hide AllCovered;
    hide LegalRun;
    hide UndisturbedRun;
    hide PatchesIn;
    hide Offline;
    if AllCovered(patches) {
      forall server: map<string, Site>, events: seq<Event>
        | LegalRun(Start(server), events) && UndisturbedRun(Start(server), events, b) && PatchesIn(events, b) == patches
        ensures Converged(server, events, b)
      {
        CoveredRunConverges(server, events, b);
      }
    } else {
      OfflineRun(b, patches);
      if Converged(map[], Offline(patches, b), b) {
        UncoveredOffline(b, patches);
      }
    }
  }

  lemma {:induction false} PlainPatchMerges(front: seq<Patch>, p: Patch, back: seq<Patch>)
    requires p.readings.None? && p.checklist.None?
    ensures var m, n := MergeAll(front + [p] + back), MergeAll(front + back);
            m.readings == n.readings && m.checklist == n.checklist
  {
    if back == [] {
      MergeAllSnoc(front, p);
      assert front + [p] + back == front + [p] && front + back == front;
    } else {
      var n := |back| - 1;
      PlainPatchMerges(front, p, back[..n]);
      assert front + [p] + back == (front + [p] + back[..n]) + [back[n]];
      assert front + back == (front + back[..n]) + [back[n]];
      MergeAllSnoc(front + [p] + back[..n], back[n]);
      MergeAllSnoc(front + back[..n], back[n]);
    }
  }

  /**
   * A patch of plain fields, like the customer's remarks enqueued from the
   * signature screen, never decides convergence, wherever it stands.
   */
  lemma PlainPatchIsFree(front: seq<Patch>, p: Patch, back: seq<Patch>)
    requires p.readings.None? && p.checklist.None?
    ensures AllCovered(front + [p] + back) <==> AllCovered(front + back)
  {
    hide MergeAll;
    PlainPatchMerges(front, p, back);
    var all, rest := front + [p] + back, front + back;
    assert forall a :: Covers(a, MergeAll(all)) <==> Covers(a, MergeAll(rest));
    assert forall a :: a in all <==> a in rest || a == p;
    assert Covers(p, MergeAll(all));
  }
}
