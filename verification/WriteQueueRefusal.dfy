/**
 * The offline write queue against a server that validates job-card bodies: a
 * patch with a field the body does not have is refused each time it is sent,
 * and with it everything that was merged into it.
 */
module WriteQueueRefusal {
  import opened Basics
  import opened JobCards
  import opened WriteQueueCore
  import opened WriteQueueMeaning
  import opened WriteQueue
  import opened WriteQueueSystem
  import opened WriteQueueConvergence
  import JobCardForm

  // ---------------------------------------------------------------- what is accepted

  /** Merging keeps every field of both patches, so one unknown field is enough to have all refused. */
  lemma AcceptsMergeIff(a: Patch, b: Patch)
    ensures Accepts(Merge(a, b)) <==> Accepts(a) && Accepts(b)
  {
    assert Merge(a, b).fields.Keys == a.fields.Keys + b.fields.Keys;
  }

  ghost predicate AllAccepted(patches: seq<Patch>) {
    forall p :: p in patches ==> Accepts(p)
  }

  lemma {:induction false} AcceptsMergeAllIff(patches: seq<Patch>)
    ensures Accepts(MergeAll(patches)) <==> AllAccepted(patches)
  {
    if patches != [] {
      var n := |patches| - 1;
      AcceptsMergeAllIff(patches[..n]);
      AcceptsMergeIff(MergeAll(patches[..n]), patches[n]);
      assert patches == patches[..n] + [patches[n]];
    }
  }

  /** The patch every form is saved as is refused, for `firstTimeFix` alone: its known part is accepted. */
  lemma FormPatchesAreRefused(p: JobCardForm.FormPatch)
    ensures !Accepts(JobCardForm.QueuedPatch(p)) && Accepts(Known(JobCardForm.QueuedPatch(p)))
    ensures JobCardForm.QueuedPatch(p).fields.Keys - Known(JobCardForm.QueuedPatch(p)).fields.Keys == {"firstTimeFix"}
  {
    var q := JobCardForm.QueuedPatch(p);
    assert "firstTimeFix" in q.fields && "firstTimeFix" !in UPSERT_FIELDS;
    assert q.fields.Keys - {"firstTimeFix"} <= UPSERT_FIELDS;
  }

  /** From nothing on, one more plain field is accepted exactly when the body has it. */
  lemma OneMoreField(p: Patch, field: string, value: Json)
    requires Accepts(p)
    ensures Accepts(EMPTY_PATCH)
    ensures Accepts(p.(fields := p.fields[field := value]))
            <==> field in {"symptoms", "faultCodes", "diagnosis", "rootCause", "resolution", "partsRecommended", "photos", "technicianRemarks", "customerRemarks"}
  {
    assert field in p.fields[field := value];
  }

  // ---------------------------------------------------------------- runs with a validating server

  /**
   * Sending a patch of `b`: one with an unknown field is refused, unless the
   * network fails, and not applied; any other meets no HTTP error but a 404.
   */
  predicate Validates(s: System, e: Event, b: string) {
    e.Perform? && Sending(s.client) && IsPatchFor(Current(s.client), b) ==>
      if Accepts(Current(s.client).payload.patch) then e.reply.HttpError? ==> e.reply.status == 404
      else !e.applied && (e.reply == HttpError(400) || e.reply.NetworkError?)
  }

  /** A legal step within the cap that neither drops a patch of `b` nor saves its card directly. */
  predicate Admissible(s: System, e: Event, b: string) {
    && Legal(s, e) && WithinCap(s, e) && Validates(s, e, b)
    && !(e.Local? && e.command.Drop? && e.command.bookingId == b)
    && !(e.DirectSave? && e.bookingId == b)
  }

  ghost predicate AdmissibleRun(s: System, events: seq<Event>, b: string) {
    forall i :: 0 <= i < |events| ==> Admissible(Run(s, events[..i]), events[i], b)
  }

  predicate GivesUpPatch(s: System, e: Event, b: string) {
    GivesUpOn(s, e, b) && Current(s.client).payload.JobCardPatch?
  }

  ghost predicate KeepsPatches(s: System, events: seq<Event>, b: string) {
    forall i :: 0 <= i < |events| ==> !GivesUpPatch(Run(s, events[..i]), events[i], b)
  }

  lemma {:induction false} RunJoin(s: System, xs: seq<Event>, ys: seq<Event>)
    ensures Run(s, xs + ys) == Run(Run(s, xs), ys)
  {
    hide Next;
    if ys == [] {
      assert xs + ys == xs;
    } else {
      var n := |ys| - 1;
      assert (xs + ys)[..|xs + ys| - 1] == xs + ys[..n];
      RunJoin(s, xs, ys[..n]);
    }
  }

  lemma RunSnoc(s: System, events: seq<Event>, e: Event)
    ensures Run(s, events + [e]) == Next(Run(s, events), e)
    ensures Run(s, []) == s
  {
    hide Next;
    assert (events + [e])[..|events|] == events;
  }

  lemma NothingRun(s: System, b: string)
    ensures Run(s, []) == s && AdmissibleRun(s, [], b)
  {
  }

  /** One admissible step more. */
  lemma AdmissibleSnoc(s: System, events: seq<Event>, e: Event, b: string)
    requires AdmissibleRun(s, events, b) && Admissible(Run(s, events), e, b)
    ensures AdmissibleRun(s, events + [e], b)
  {
    hide Admissible;
    hide Run;
    var all := events + [e];
    forall i | 0 <= i < |all| ensures Admissible(Run(s, all[..i]), all[i], b) {
      if i < |events| {
        assert all[..i] == events[..i];
      } else {
        assert all[..i] == events;
      }
    }
  }

  lemma AdmissiblePrefix(s: System, events: seq<Event>, n: nat, b: string)
    requires AdmissibleRun(s, events, b) && n <= |events|
    ensures AdmissibleRun(s, events[..n], b)
  {
    hide Admissible;
    hide Run;
    forall i | 0 <= i < n ensures Admissible(Run(s, events[..n][..i]), events[..n][i], b) {
      assert events[..n][..i] == events[..i];
    }
  }

  lemma {:induction false} AdmissibleJoin(s: System, xs: seq<Event>, ys: seq<Event>, b: string)
    requires AdmissibleRun(s, xs, b) && AdmissibleRun(Run(s, xs), ys, b)
    ensures AdmissibleRun(s, xs + ys, b)
  {
    hide Admissible;
    hide Run;
    if ys == [] {
      assert xs + ys == xs;
    } else {
      var n := |ys| - 1;
      AdmissiblePrefix(Run(s, xs), ys, n, b);
      AdmissibleJoin(s, xs, ys[..n], b);
      RunJoin(s, xs, ys[..n]);
      AdmissibleSnoc(s, xs + ys[..n], ys[n], b);
      assert xs + ys == xs + ys[..n] + [ys[n]];
    }
  }

  lemma AdmissibleIsLegal(s: System, events: seq<Event>, b: string)
    requires AdmissibleRun(s, events, b)
    ensures LegalRun(s, events)
  {
    hide Run;
    forall i | 0 <= i < |events| ensures Legal(Run(s, events[..i]), events[i]) {
      assert Admissible(Run(s, events[..i]), events[i], b);
    }
  }

  // ---------------------------------------------------------------- accepted patches are never given up

  ghost predicate AcceptedIn(list: seq<QueuedWrite>, b: string) {
    forall w :: w in list && IsPatchFor(w, b) ==> Accepts(w.payload.patch)
  }

  ghost predicate AcceptedEverywhere(s: System, b: string) {
    AcceptedIn(s.client.stored, b) && (s.client.flight.Some? ==> AcceptedIn(s.client.flight.value.snapshot, b))
  }

  lemma ExtendAccepted(queue: seq<QueuedWrite>, write: NewWrite, meta: Meta, b: string)
    requires AcceptedIn(queue, b)
    requires write.payload.JobCardPatch? && write.bookingId == b ==> Accepts(write.payload.patch)
    ensures AcceptedIn(Extend(queue, write, meta), b)
  {
    if Coalesces(queue, write) {
      var prev := queue[PatchIndex(queue, write.bookingId)];
      AcceptsMergeIff(prev.payload.patch, write.payload.patch);
      assert prev in queue;
    }
  }

  lemma LocalAccepted(s: System, e: Event, b: string)
    requires AcceptedEverywhere(s, b) && e.Local?
    requires EnqueuesPatch(e, b) ==> Accepts(e.command.write.payload.patch)
    ensures AcceptedEverywhere(Next(s, e), b)
  {
    hide WriteQueueCore.Extend;
    var stored := s.client.stored;
    match e.command
    case Enqueue(write, meta) =>
      ExtendAccepted(stored, write, meta, b);
      assert forall w :: w in Execute(stored, e.command) ==> w in Extend(stored, write, meta);
    case Drop(_) =>
      assert forall w :: w in Execute(stored, e.command) ==> w in stored;
  }

  lemma FinishAccepted(s: System, b: string)
    requires Sound(s) && AcceptedEverywhere(s, b)
    ensures AcceptedEverywhere(Next(s, FinishFlush), b)
  {
    hide Merged;
    if s.client.flight.Some? && !Sending(s.client) {
      MergedIsStored(s);
      forall r | r in Merged(s) && IsPatchFor(r, b) ensures Accepts(r.payload.patch) {
        MergedOrigin(s, r);
      }
    }
  }

  lemma StepAccepted(s: System, e: Event, b: string)
    requires Sound(s) && AcceptedEverywhere(s, b)
    requires EnqueuesPatch(e, b) ==> Accepts(e.command.write.payload.patch)
    ensures AcceptedEverywhere(Next(s, e), b)
  {
    hide Sound;
    hide Execute;
    hide Reconcile;
    match e
    case Local(_) => LocalAccepted(s, e, b);
    case DirectSave(_, _) =>
    case StartFlush =>
    case Perform(_, _) =>
    case FinishFlush => FinishAccepted(s, b);
    case Crash =>
  }

  lemma {:induction false} RunAccepted(server: map<string, Site>, events: seq<Event>, b: string)
    requires LegalRun(Start(server), events) && AllAccepted(PatchesIn(events, b))
    ensures AcceptedEverywhere(Run(Start(server), events), b)
  {
    hide AcceptedEverywhere;
    hide Next;
    hide Accepts;
    if events == [] {
      assert AcceptedEverywhere(Start(server), b) by { NothingRefused(server, b); }
    } else {
      var n := |events| - 1;
      var patch := if EnqueuesPatch(events[n], b) then [events[n].command.write.payload.patch] else [];
      assert PatchesIn(events, b) == PatchesIn(events[..n], b) + patch;
      LegalPrefix(Start(server), events);
      assert forall p :: p in patch || p in PatchesIn(events[..n], b) ==> p in PatchesIn(events, b);
      RunAccepted(server, events[..n], b);
      ReachableIsSound(server, events[..n]);
      StepAccepted(Run(Start(server), events[..n]), events[n], b);
    }
  }

  lemma NothingRefused(server: map<string, Site>, b: string)
    ensures AcceptedEverywhere(Start(server), b)
  {
  }

  lemma {:induction false} PatchesOfPrefix(events: seq<Event>, n: nat, b: string)
    requires n <= |events|
    ensures forall p :: p in PatchesIn(events[..n], b) ==> p in PatchesIn(events, b)
    decreases |events|
  {
    if n < |events| {
      PatchesOfPrefix(events[..|events| - 1], n, b);
      assert events[..|events| - 1][..n] == events[..n];
    } else {
      assert events[..n] == events;
    }
  }

  lemma AcceptedIsKept(s: System, e: Event, b: string)
    requires AcceptedEverywhere(s, b) && Validates(s, e, b)
    ensures !GivesUpPatch(s, e, b)
  {
    if e.Perform? && Sending(s.client) {
      assert Current(s.client) in s.client.flight.value.snapshot;
    }
  }

  /** However the run goes, drops, direct saves and cuts at the cap included, no accepted patch is given up. */
  lemma AcceptedPatchesAreKept(server: map<string, Site>, events: seq<Event>, b: string)
    requires LegalRun(Start(server), events) && AllAccepted(PatchesIn(events, b))
    requires forall i :: 0 <= i < |events| ==> Validates(Run(Start(server), events[..i]), events[i], b)
    ensures KeepsPatches(Start(server), events, b)
  {
    hide Run;
    hide Validates;
    hide GivesUpPatch;
    hide AcceptedEverywhere;
    hide Accepts;
    forall i | 0 <= i < |events| ensures !GivesUpPatch(Run(Start(server), events[..i]), events[i], b) {
      LegalUpTo(Start(server), events, i);
      PatchesOfPrefix(events, i, b);
      RunAccepted(server, events[..i], b);
      AcceptedIsKept(Run(Start(server), events[..i]), events[i], b);
    }
  }

  lemma LegalUpTo(s: System, events: seq<Event>, n: nat)
    requires LegalRun(s, events) && n <= |events|
    ensures LegalRun(s, events[..n])
  {
    hide Run;
    hide Legal;
    forall i | 0 <= i < n ensures Legal(Run(s, events[..n][..i]), events[..n][i]) {
      assert events[..n][..i] == events[..i];
    }
  }

  // ---------------------------------------------------------------- one unknown field gets everything given up

  const REFUSED_SEND := Perform(HttpError(400), false)
  const REFUSED_FLUSH: seq<Event> := [StartFlush, REFUSED_SEND, FinishFlush]

  function Refusals(n: nat): seq<Event> {
    if n == 0 then [] else Refusals(n - 1) + REFUSED_FLUSH
  }

  /** One unacceptable patch of `b` alone in the queue, nothing in flight. */
  predicate OnlyRefused(s: System, b: string, w: QueuedWrite) {
    s.client == Client([w], None) && IsPatchFor(w, b) && !Accepts(w.payload.patch)
  }

  lemma KeptOnce(w: QueuedWrite)
    ensures Reconcile([w], [w.(attempts := w.attempts + 1)], [w]) == [w.(attempts := w.attempts + 1)]
  {
    assert [w][..0] == [];
    var kept := [w.(attempts := w.attempts + 1)];
    assert kept[..0] == [];
    assert Lookup([w], w.id) == Some(w) && Lookup(kept, w.id) == Some(kept[0]);
    assert Reconcile([w], kept, []) == [];
  }

  lemma RefusedSend(s: System, b: string, w: QueuedWrite)
    requires OnlyRefused(s, b, w)
    ensures var t := Next(s, StartFlush);
            && Sending(t.client) && Current(t.client) == w
            && (w.attempts < 4 ==> Next(t, REFUSED_SEND).client
                                   == Client([w], Some(Flight([w], 1, [w.(attempts := w.attempts + 1)], 0, 0))))
            && (w.attempts >= 4 ==> GivesUpPatch(t, REFUSED_SEND, b))
  {
    hide Sent;
    assert [] + [w.(attempts := w.attempts + 1)] == [w.(attempts := w.attempts + 1)];
  }

  lemma RefusedFlush(s: System, b: string, w: QueuedWrite)
    requires OnlyRefused(s, b, w) && w.attempts < 4
    ensures OnlyRefused(Run(s, REFUSED_FLUSH), b, w.(attempts := w.attempts + 1))
    ensures AdmissibleRun(s, REFUSED_FLUSH, b)
  {
    hide Next;
    hide Run;
    hide AdmissibleRun;
    var t := Next(s, StartFlush);
    var u := Next(t, REFUSED_SEND);
    RunSnoc(s, [], StartFlush);
    RunSnoc(s, [StartFlush], REFUSED_SEND);
    RunSnoc(s, [StartFlush, REFUSED_SEND], FinishFlush);
    assert [] + [StartFlush] == [StartFlush] && [StartFlush] + [REFUSED_SEND] == [StartFlush, REFUSED_SEND]
        && [StartFlush, REFUSED_SEND] + [FinishFlush] == REFUSED_FLUSH;
    RefusedSend(s, b, w);
    FinishRefused(u, b, w);
    NothingRun(s, b);
    AdmissibleSnoc(s, [], StartFlush, b);
    AdmissibleSnoc(s, [StartFlush], REFUSED_SEND, b);
    AdmissibleSnoc(s, [StartFlush, REFUSED_SEND], FinishFlush, b);
  }

  lemma FinishRefused(u: System, b: string, w: QueuedWrite)
    requires u.client == Client([w], Some(Flight([w], 1, [w.(attempts := w.attempts + 1)], 0, 0)))
    requires IsPatchFor(w, b) && !Accepts(w.payload.patch)
    ensures OnlyRefused(Next(u, FinishFlush), b, w.(attempts := w.attempts + 1))
  {
    hide Reconcile;
    KeptOnce(w);
  }

  lemma {:induction false} ManyRefusals(s: System, b: string, w: QueuedWrite, n: nat)
    requires OnlyRefused(s, b, w) && w.attempts + n <= 4
    ensures OnlyRefused(Run(s, Refusals(n)), b, w.(attempts := w.attempts + n)) && AdmissibleRun(s, Refusals(n), b)
  {
    hide OnlyRefused;
    hide AdmissibleRun;
    hide Run;
    if n == 0 {
      NothingRun(s, b);
    } else {
      ManyRefusals(s, b, w, n - 1);
      RefusedFlush(Run(s, Refusals(n - 1)), b, w.(attempts := w.attempts + (n - 1)));
      RunJoin(s, Refusals(n - 1), REFUSED_FLUSH);
      AdmissibleJoin(s, Refusals(n - 1), REFUSED_FLUSH, b);
    }
  }

  lemma {:induction false} PatchesJoin(xs: seq<Event>, ys: seq<Event>, b: string)
    ensures PatchesIn(xs + ys, b) == PatchesIn(xs, b) + PatchesIn(ys, b)
  {
    if ys == [] {
      assert xs + ys == xs;
    } else {
      var n := |ys| - 1;
      assert (xs + ys)[..|xs + ys| - 1] == xs + ys[..n];
      PatchesJoin(xs, ys[..n], b);
    }
  }

  lemma {:induction false} NoPatchesIn(events: seq<Event>, b: string)
    requires forall e :: e in events ==> !e.Local?
    ensures PatchesIn(events, b) == []
  {
    if events != [] {
      assert !events[|events| - 1].Local?;
      NoPatchesIn(events[..|events| - 1], b);
    }
  }

  lemma {:induction false} NoPatchesRefused(n: nat, b: string)
    ensures PatchesIn(Refusals(n), b) == []
  {
    hide PatchesIn;
    if n == 0 {
      NoPatchesIn([], b);
    } else {
      NoPatchesRefused(n - 1, b);
      PatchesJoin(Refusals(n - 1), REFUSED_FLUSH, b);
      NoPatchesIn(REFUSED_FLUSH, b);
    }
  }

  lemma OfflineAdmissible(s: System, events: seq<Event>, b: string)
    requires LegalRun(s, events) && UndisturbedRun(s, events, b) && forall e :: e in events ==> e.Local?
    ensures AdmissibleRun(s, events, b)
  {
    hide Run;
    hide Next;
    hide WriteQueueCore.Extend;
    forall i | 0 <= i < |events| ensures Admissible(Run(s, events[..i]), events[i], b) {
      assert events[i] in events;
      assert Legal(Run(s, events[..i]), events[i]) && Undisturbed(Run(s, events[..i]), events[i], b);
    }
  }

  lemma OneWaiting(s: System, b: string, patches: seq<Patch>) returns (w: QueuedWrite)
    requires OfflineState(s, b, patches) && patches != [] && !Accepts(MergeAll(patches))
    ensures OnlyRefused(s, b, w) && w.attempts == 0
  {
    hide Sound;
    hide Accepts;
    hide MergeAll;
    w := s.client.stored[PatchIndex(s.client.stored, b)];
    assert w in s.client.stored && s.client.stored == [w];
  }

  /** Enqueued offline, the patches wait as one, never tried. */
  lemma WaitingOffline(b: string, patches: seq<Patch>) returns (w: QueuedWrite)
    requires !AllAccepted(patches)
    ensures OnlyRefused(Run(Start(map[]), Offline(patches, b)), b, w) && w.attempts == 0
    ensures AdmissibleRun(Start(map[]), Offline(patches, b), b)
    ensures PatchesIn(Offline(patches, b), b) == patches
  {
    hide Run;
    hide Accepts;
    hide OnlyRefused;
    hide OfflineState;
    hide AdmissibleRun;
    hide PatchesIn;
    hide LegalRun;
    hide UndisturbedRun;
    OfflineRun(b, patches);
    AcceptsMergeAllIff(patches);
    OfflineAdmissible(Start(map[]), Offline(patches, b), b);
    w := OneWaiting(Run(Start(map[]), Offline(patches, b)), b, patches);
  }

  /** The enqueues, four refused flushes, and the fifth refusal. */
  function RefusedScript(patches: seq<Patch>, b: string): seq<Event> {
    Offline(patches, b) + Refusals(4) + [StartFlush] + [REFUSED_SEND]
  }

  lemma RefusedScriptGivesUp(b: string, patches: seq<Patch>)
    requires !AllAccepted(patches)
    ensures var events := RefusedScript(patches, b);
            && AdmissibleRun(Start(map[]), events, b) && PatchesIn(events, b) == patches
            && !KeepsPatches(Start(map[]), events, b)
  {
    hide Run;
    hide Next;
    hide Offline;
    hide Refusals;
    hide OnlyRefused;
    hide AdmissibleRun;
    hide AllAccepted;
    hide GivesUpPatch;
    var events, queued := RefusedScript(patches, b), Offline(patches, b);
    var w := WaitingOffline(b, patches);
    var s := Run(Start(map[]), queued);
    ManyRefusals(s, b, w, 4);
    var t := Run(s, Refusals(4));
    RunJoin(Start(map[]), queued, Refusals(4));
    AdmissibleJoin(Start(map[]), queued, Refusals(4), b);
    FifthRefusal(t, b, w.(attempts := w.attempts + 4));
    var begun := queued + Refusals(4) + [StartFlush];
    RunJoin(Start(map[]), queued + Refusals(4), [StartFlush]);
    AdmissibleJoin(Start(map[]), queued + Refusals(4), [StartFlush], b);
    AdmissibleJoin(Start(map[]), begun, [REFUSED_SEND], b);
    assert events == begun + [REFUSED_SEND] && events[..|begun|] == begun && events[|begun|] == REFUSED_SEND;
    assert GivesUpPatch(Run(Start(map[]), events[..|begun|]), events[|begun|], b);
    NoPatchesRefused(4, b);
    PatchesJoin(queued, Refusals(4), b);
    PatchesJoin(queued + Refusals(4), [StartFlush], b);
    PatchesJoin(begun, [REFUSED_SEND], b);
    NoPatchesIn([StartFlush], b);
    NoPatchesIn([REFUSED_SEND], b);
  }

  lemma FifthRefusal(t: System, b: string, w: QueuedWrite)
    requires OnlyRefused(t, b, w) && w.attempts == 4
    ensures AdmissibleRun(t, [StartFlush], b) && AdmissibleRun(Run(t, [StartFlush]), [REFUSED_SEND], b)
    ensures GivesUpPatch(Run(t, [StartFlush]), REFUSED_SEND, b)
  {
    hide Next;
    var u := Next(t, StartFlush);
    assert [StartFlush][..0] == [] && [REFUSED_SEND][..0] == [];
    assert Run(t, [StartFlush]) == u;
    RefusedSend(t, b, w);
  }

  /** No run that enqueues these patches for `b` gives up a patch of `b`. */
  ghost predicate NeverGivenUp(b: string, patches: seq<Patch>) {
    forall server: map<string, Site>, events: seq<Event> ::
      AdmissibleRun(Start(server), events, b) && PatchesIn(events, b) == patches
      ==> KeepsPatches(Start(server), events, b)
  }

  /**
   * With a validating server a booking's patches are safe from being given up,
   * over all servers and all runs that enqueue them, if and only if every one
   * of them has known fields only. One that has not takes the others with it.
   */
  lemma NeverGivenUpIff(b: string, patches: seq<Patch>)
    ensures NeverGivenUp(b, patches) <==> AllAccepted(patches)
  {
    hide AdmissibleRun;
    hide AllAccepted;
    hide KeepsPatches;
    hide PatchesIn;
    hide RefusedScript;
    if AllAccepted(patches) {
      forall server: map<string, Site>, events: seq<Event>
        | AdmissibleRun(Start(server), events, b) && PatchesIn(events, b) == patches
        ensures KeepsPatches(Start(server), events, b)
      {
        AdmissibleIsLegal(Start(server), events, b);
        AdmissibleValidates(Start(server), events, b);
        AcceptedPatchesAreKept(server, events, b);
      }
    } else {
      RefusedScriptGivesUp(b, patches);
    }
  }

  lemma AdmissibleValidates(s: System, events: seq<Event>, b: string)
    requires AdmissibleRun(s, events, b)
    ensures forall i :: 0 <= i < |events| ==> Validates(Run(s, events[..i]), events[i], b)
  {
    hide Run;
    forall i | 0 <= i < |events| ensures Validates(Run(s, events[..i]), events[i], b) {
      assert Admissible(Run(s, events[..i]), events[i], b);
    }
  }

  /** So no sequence of edits with a saved form in it is safe, whatever else, such as the customer's remarks, it holds. */
  lemma SavedFormsAreGivenUp(b: string, patches: seq<Patch>, p: JobCardForm.FormPatch)
    requires JobCardForm.QueuedPatch(p) in patches
    ensures !NeverGivenUp(b, patches)
  {
    hide NeverGivenUp;
    hide JobCardForm.QueuedPatch;
    hide Accepts;
    FormPatchesAreRefused(p);
    NeverGivenUpIff(b, patches);
  }

  // ---------------------------------------------------------------- the card meanwhile

  /**
   * The pending patch of `b` is unacceptable, the flush in flight has no
   * acceptable patch of `b` left to send, and it settled no unacceptable one.
   */
  ghost predicate Blocked(s: System, b: string) {
    && PendingPatch(s.client.stored, b).Some? && !Accepts(PendingPatch(s.client.stored, b).value)
    && (s.client.flight.Some? ==>
          var f := s.client.flight.value;
          && (forall j :: f.next <= j < |f.snapshot| && IsPatchFor(f.snapshot[j], b) ==> !Accepts(f.snapshot[j].payload.patch))
          && (forall j :: 0 <= j < |f.snapshot| && IsPatchFor(f.snapshot[j], b) && !Accepts(f.snapshot[j].payload.patch)
                ==> f.snapshot[j].id !in s.settled))
  }

  lemma BlockedPerform(s: System, reply: Reply, applied: bool, b: string)
    requires Sound(s) && Blocked(s, b)
    requires Validates(s, Perform(reply, applied), b) && !GivesUpPatch(s, Perform(reply, applied), b)
    ensures Blocked(Next(s, Perform(reply, applied)), b)
    ensures CardOf(Next(s, Perform(reply, applied)), b) == CardOf(s, b)
  {
    hide Sent;
    hide Accepts;
    hide JobCards.Apply;
    hide WriteQueueCore.PendingPatch;
    if Sending(s.client) {
      var f, t, w := s.client.flight.value, Next(s, Perform(reply, applied)), Current(s.client);
      CardAfterSend(s, reply, applied, b);
      assert w in f.snapshot;
      forall j | 0 <= j < |f.snapshot| && IsPatchFor(f.snapshot[j], b) && !Accepts(f.snapshot[j].payload.patch)
        ensures f.snapshot[j].id !in t.settled
      {
        if f.snapshot[j].id == w.id {
          SameId(f.snapshot, f.snapshot[j], w);
        }
      }
    }
  }

  lemma BlockedLocal(s: System, e: Event, b: string)
    requires Sound(s) && Blocked(s, b) && Admissible(s, e, b) && e.Local?
    ensures Blocked(Next(s, e), b)
  {
    hide Accepts;
    hide Execute;
    hide WriteQueueCore.PendingPatch;
    if e.command.Enqueue? {
      PendingAfterEnqueue(s, e, b);
      if EnqueuesPatch(e, b) {
        AcceptsMergeIff(PendingPatch(s.client.stored, b).value, e.command.write.payload.patch);
      }
    } else {
      PendingAfterDrop(s.client.stored, e.command.bookingId, b);
    }
  }

  lemma BlockedStart(s: System, b: string)
    requires Sound(s) && Blocked(s, b)
    ensures Blocked(Next(s, StartFlush), b)
  {
    hide Accepts;
    hide WriteQueueCore.PendingPatch;
    var stored := s.client.stored;
    forall j | 0 <= j < |stored| && IsPatchFor(stored[j], b) ensures PendingPatch(stored, b) == Some(stored[j].payload.patch) {
      PatchMember(stored, stored[j], b);
    }
  }

  lemma BlockedFinish(s: System, b: string)
    requires Sound(s) && Blocked(s, b)
    ensures Blocked(Next(s, FinishFlush), b)
  {
    hide Accepts;
    hide Reconcile;
    hide WriteQueueCore.PendingPatch;
    if s.client.flight.Some? && !Sending(s.client) {
      PendingAfterFinish(s, b);
    }
  }

  lemma BlockedQuiet(s: System, e: Event, b: string)
    requires Blocked(s, b) && ((e.DirectSave? && e.bookingId != b) || e.Crash?)
    ensures Blocked(Next(s, e), b) && CardOf(Next(s, e), b) == CardOf(s, b)
  {
    hide Accepts;
    hide JobCards.Apply;
    hide WriteQueueCore.PendingPatch;
  }

  lemma BlockedStep(s: System, e: Event, b: string)
    requires Sound(s) && Blocked(s, b) && Admissible(s, e, b) && !GivesUpPatch(s, e, b)
    ensures Sound(Next(s, e)) && Blocked(Next(s, e), b) && CardOf(Next(s, e), b) == CardOf(s, b)
  {
    hide Sound;
    hide Blocked;
    hide ClientNext;
    hide Validates;
    hide GivesUpPatch;
    StepKeepsSound(s, e);
    match e
    case Local(_) => BlockedLocal(s, e, b);
    case DirectSave(_, _) => BlockedQuiet(s, e, b);
    case StartFlush => BlockedStart(s, b);
    case Perform(reply, applied) => BlockedPerform(s, reply, applied, b);
    case FinishFlush => BlockedFinish(s, b);
    case Crash => BlockedQuiet(s, e, b);
  }

  /**
   * While an unacceptable patch is pending nothing of the booking reaches its
   * card, neither what the patch holds nor anything edited later, until the
   * patch is given up.
   */
  lemma {:induction false} CardStaysWhileRefused(s: System, events: seq<Event>, b: string)
    requires Sound(s) && Blocked(s, b) && AdmissibleRun(s, events, b) && KeepsPatches(s, events, b)
    ensures Sound(Run(s, events)) && Blocked(Run(s, events), b) && CardOf(Run(s, events), b) == CardOf(s, b)
  {
    hide Sound;
    hide Blocked;
    hide Next;
    hide CardOf;
    hide Admissible;
    hide GivesUpPatch;
    if events != [] {
      var n := |events| - 1;
      AdmissiblePrefix(s, events, n, b);
      assert KeepsPatches(s, events[..n], b) by { KeepsPrefix(s, events, b); }
      CardStaysWhileRefused(s, events[..n], b);
      assert Admissible(Run(s, events[..n]), events[n], b) && !GivesUpPatch(Run(s, events[..n]), events[n], b);
      BlockedStep(Run(s, events[..n]), events[n], b);
    }
  }

  lemma KeepsPrefix(s: System, events: seq<Event>, b: string)
    requires events != [] && KeepsPatches(s, events, b)
    ensures KeepsPatches(s, events[..|events| - 1], b)
  {
    hide Run;
    hide GivesUpPatch;
    var n := |events| - 1;
    forall i | 0 <= i < n ensures !GivesUpPatch(Run(s, events[..n][..i]), events[..n][i], b) {
      assert events[..n][..i] == events[..i];
    }
  }
}
