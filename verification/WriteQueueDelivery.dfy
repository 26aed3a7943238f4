/**
 * What the offline write queue owes the other writes: the last signature
 * wins, no photo is lost, and when dropping a queued patch really protects a
 * direct save.
 */
module WriteQueueDelivery {
  import opened Basics
  import opened JobCards
  import opened WriteQueueCore
  import opened WriteQueueMeaning
  import opened WriteQueue
  import opened WriteQueueSystem
  import opened WriteQueueConvergence

  // ---------------------------------------------------------------- signatures

  predicate EnqueuesSignature(e: Event, b: string) {
    e.Local? && e.command.Enqueue? && e.command.write.payload.SignatureUpload? && e.command.write.bookingId == b
  }

  function SignatureOf(s: System, b: string): Option<string> {
    SiteOf(s.server, b).signature
  }

  /** The pending signature of `b`, or else the server's. */
  function ShownSignature(s: System, b: string): Option<string> {
    var pending := PendingSignature(s.client.stored, b);
    if pending.Some? then pending else SignatureOf(s, b)
  }

  /** Unsent snapshot signatures are still pending or superseded; sent ones are the server's. */
  ghost predicate SignatureInv(s: System, b: string) {
    && Sound(s)
    && (s.client.flight.Some? ==>
          var f := s.client.flight.value;
          && (forall j :: f.next <= j < |f.snapshot| && IsSignatureFor(f.snapshot[j], b)
                ==> PendingSignature(s.client.stored, b).Some?)
          && (forall j :: 0 <= j < f.next <= |f.snapshot| && IsSignatureFor(f.snapshot[j], b) && f.snapshot[j].id in s.settled
                ==> SignatureOf(s, b) == Some(f.snapshot[j].payload.signatureUri)))
  }

  function LastSignature(before: Option<string>, e: Event, b: string): Option<string> {
    if EnqueuesSignature(e, b) then Some(e.command.write.payload.signatureUri) else before
  }

  lemma SignatureAfterDrop(stored: seq<QueuedWrite>, c: string, b: string)
    requires WellFormed(stored)
    ensures PendingSignature(Execute(stored, Drop(c)), b) == PendingSignature(stored, b)
  {
    var next := WithoutJobCardPatch(stored, c);
    OrderedFilter(stored, (w: QueuedWrite) => !IsPatchFor(w, c));
    TrimKeepsOrdered(next);
    SameSignatures(stored, next, b);
  }

  lemma SignatureLocal(s: System, e: Event, b: string)
    requires SignatureInv(s, b) && Legal(s, e) && WithinCap(s, e) && e.Local?
    ensures SignatureInv(Next(s, e), b) && ShownSignature(Next(s, e), b) == LastSignature(ShownSignature(s, b), e, b)
  {
    hide Execute;
    hide WriteQueueCore.PendingSignature;
    hide WriteQueueCore.Extend;
    hide FlightSound;
    StepKeepsSound(s, e);
    if e.command.Enqueue? {
      StoredAfterEnqueue(s, e);
      ExtendSignature(s.client.stored, e.command.write, e.command.meta, b);
    } else {
      SignatureAfterDrop(s.client.stored, e.command.bookingId, b);
    }
  }

  lemma OneSignature(list: seq<QueuedWrite>, i: nat, j: nat, b: string)
    requires Ordered(list) && i < |list| && j < |list| && IsSignatureFor(list[i], b) && IsSignatureFor(list[j], b)
    ensures i == j
  {
    forall k | 0 <= k < |list| && k != i ensures !IsSignatureFor(list[k], b) {
      var lo, hi := if k < i then k else i, if k < i then i else k;
      assert MayPrecede(list[lo], list[hi]);
    }
  }

  lemma SignatureAfterSend(s: System, reply: Reply, applied: bool, b: string)
    requires Sending(s.client)
    ensures var w, t := Current(s.client), Next(s, Perform(reply, applied));
            SignatureOf(t, b) == if IsSignatureFor(w, b) && (applied || reply.Accepted?)
                                 then Some(w.payload.signatureUri) else SignatureOf(s, b)
  {
    hide JobCards.Apply;
    hide ClientNext;
    hide SettledAfter;
  }

  lemma SignaturePerform(s: System, reply: Reply, applied: bool, b: string)
    requires SignatureInv(s, b) && !GivesUpOn(s, Perform(reply, applied), b)
    ensures SignatureInv(Next(s, Perform(reply, applied)), b)
    ensures ShownSignature(Next(s, Perform(reply, applied)), b) == ShownSignature(s, b)
  {
    hide Sent;
    hide SettledExactly;
    hide KeptFromPrefix;
    hide WriteQueueCore.PendingSignature;
    StepKeepsSound(s, Perform(reply, applied));
    if Sending(s.client) {
      var f, w, t := s.client.flight.value, Current(s.client), Next(s, Perform(reply, applied));
      SignatureAfterSend(s, reply, applied, b);
      forall j | 0 <= j < t.client.flight.value.next <= |f.snapshot| && IsSignatureFor(f.snapshot[j], b)
                 && f.snapshot[j].id in t.settled
        ensures SignatureOf(t, b) == Some(f.snapshot[j].payload.signatureUri)
      {
        SentOrNow(s, reply, j);
        if IsSignatureFor(w, b) {
          OneSignature(f.snapshot, j, f.next, b);
        }
      }
    }
  }

  lemma SignatureFinish(s: System, b: string)
    requires SignatureInv(s, b)
    ensures SignatureInv(Next(s, FinishFlush), b) && ShownSignature(Next(s, FinishFlush), b) == ShownSignature(s, b)
  {
    hide Merged;
    hide Reconcile;
    StepKeepsSound(s, FinishFlush);
    if s.client.flight.Some? && !Sending(s.client) {
      var stored, isSignature := s.client.stored, (w: QueuedWrite) => IsSignatureFor(w, b);
      MergedIsStored(s);
      if PendingSignature(Merged(s), b).Some? {
        var r := Merged(s)[FirstIndex(Merged(s), isSignature)];
        MergedOrigin(s, r);
        var q :| q in stored && Body(q) == Body(r);
        SignatureMember(stored, q, b);
      } else if PendingSignature(stored, b).Some? {
        NoPendingSignature(Merged(s), b);
        MergedOrSettled(s, stored[FirstIndex(stored, isSignature)]);
      }
    }
  }

  lemma SignatureQuiet(s: System, e: Event, b: string)
    requires SignatureInv(s, b) && (e.DirectSave? || e.Crash?)
    ensures SignatureInv(Next(s, e), b) && ShownSignature(Next(s, e), b) == ShownSignature(s, b)
  {
    hide WriteQueueCore.PendingSignature;
    hide FlightSound;
    hide JobCards.Apply;
    StepKeepsSound(s, e);
    assert SignatureOf(Next(s, e), b) == SignatureOf(s, b);
  }

  lemma SignatureStart(s: System, b: string)
    requires SignatureInv(s, b)
    ensures SignatureInv(Next(s, StartFlush), b) && ShownSignature(Next(s, StartFlush), b) == ShownSignature(s, b)
  {
    hide WriteQueueCore.PendingSignature;
    hide FlightSound;
    StepKeepsSound(s, StartFlush);
    var stored := s.client.stored;
    forall j | 0 <= j < |stored| && IsSignatureFor(stored[j], b) ensures PendingSignature(stored, b).Some? {
      SignatureMember(stored, stored[j], b);
    }
  }

  lemma SignatureStep(s: System, e: Event, b: string)
    requires SignatureInv(s, b) && Legal(s, e) && WithinCap(s, e) && !GivesUpOn(s, e, b)
    ensures SignatureInv(Next(s, e), b) && ShownSignature(Next(s, e), b) == LastSignature(ShownSignature(s, b), e, b)
  {
    hide SignatureInv;
    hide ShownSignature;
    match e
    case Local(_) => SignatureLocal(s, e, b);
    case DirectSave(_, _) => SignatureQuiet(s, e, b);
    case StartFlush => SignatureStart(s, b);
    case Perform(reply, applied) => SignaturePerform(s, reply, applied, b);
    case FinishFlush => SignatureFinish(s, b);
    case Crash => SignatureQuiet(s, e, b);
  }

  function SignatureIn(before: Option<string>, events: seq<Event>, b: string): Option<string> {
    if events == [] then before
    else LastSignature(SignatureIn(before, events[..|events| - 1], b), events[|events| - 1], b)
  }

  /** Every enqueue fits under the cap and no write of `b` is given up. */
  ghost predicate NoLoss(s: System, events: seq<Event>, b: string) {
    forall i :: 0 <= i < |events| ==>
      WithinCap(Run(s, events[..i]), events[i]) && !GivesUpOn(Run(s, events[..i]), events[i], b)
  }

  lemma NoLossPrefix(s: System, events: seq<Event>, b: string)
    requires events != [] && LegalRun(s, events) && NoLoss(s, events, b)
    ensures var init, last := events[..|events| - 1], events[|events| - 1];
            && LegalRun(s, init) && NoLoss(s, init, b)
            && Legal(Run(s, init), last) && WithinCap(Run(s, init), last) && !GivesUpOn(Run(s, init), last, b)
  {
    hide Run;
    hide WithinCap;
    hide GivesUpOn;
    LegalPrefix(s, events);
    var n := |events| - 1;
    forall i | 0 <= i < n
      ensures WithinCap(Run(s, events[..n][..i]), events[..n][i])
      ensures !GivesUpOn(Run(s, events[..n][..i]), events[..n][i], b)
    {
      assert events[..n][..i] == events[..i];
    }
  }

  /**
   * The last signature wins. In every run without loss, drops and direct saves
   * included, the pending signature of a booking, or else the server's, is the
   * one enqueued last.
   */
  lemma {:induction false} SignatureConverges(server: map<string, Site>, events: seq<Event>, b: string)
    requires LegalRun(Start(server), events) && NoLoss(Start(server), events, b)
    ensures SignatureInv(Run(Start(server), events), b)
    ensures ShownSignature(Run(Start(server), events), b)
         == SignatureIn(SiteOf(server, b).signature, events, b)
  {
    hide SignatureInv;
    hide ShownSignature;
    if events == [] {
      SignatureAtStart(server, b);
    } else {
      NoLossPrefix(Start(server), events, b);
      SignatureConverges(server, events[..|events| - 1], b);
      SignatureStep(Run(Start(server), events[..|events| - 1]), events[|events| - 1], b);
    }
  }

  lemma SignatureAtStart(server: map<string, Site>, b: string)
    ensures SignatureInv(Start(server), b) && ShownSignature(Start(server), b) == SiteOf(server, b).signature
  {
    PendingSignatureNone(Start(server).client.stored, b);
  }

  // ---------------------------------------------------------------- photos

  predicate EnqueuesPhoto(e: Event, b: string, photo: Payload) {
    && e.Local? && e.command.Enqueue? && e.command.write == NewWrite(b, photo) && photo.PhotoUpload?
  }

  predicate HoldsPhoto(w: QueuedWrite, b: string, photo: Payload) {
    w.bookingId == b && w.payload == photo
  }

  /** Queued, and not one the flush in flight has already sent and will strike out. */
  predicate Outstanding(s: System, q: QueuedWrite, b: string, photo: Payload) {
    HoldsPhoto(q, b, photo)
    && !(s.client.flight.Some? && q in s.client.flight.value.snapshot && q.id in s.settled)
  }

  function OutstandingIn(s: System, list: seq<QueuedWrite>, b: string, photo: Payload): seq<QueuedWrite> {
    Filter(list, (q: QueuedWrite) => Outstanding(s, q, b, photo))
  }

  /** How often a photo is attached to a booking. */
  function Attached(s: System, b: string, photo: Payload): nat {
    multiset(SiteOf(s.server, b).photos)[photo]
  }

  /** How often a photo is attached or still to be sent. */
  function Copies(s: System, b: string, photo: Payload): nat {
    Attached(s, b, photo) + |OutstandingIn(s, s.client.stored, b, photo)|
  }

  lemma {:induction false} FilterTwice(list: seq<QueuedWrite>, p: QueuedWrite -> bool, q: QueuedWrite -> bool, r: QueuedWrite -> bool)
    requires forall w :: r(w) <==> p(w) && q(w)
    ensures Filter(Filter(list, p), q) == Filter(list, r)
  {
    if list != [] {
      var init, last := list[..|list| - 1], list[|list| - 1];
      FilterTwice(init, p, q, r);
      FilterConcat(Filter(init, p), if p(last) then [last] else [], q);
    }
  }

  lemma {:induction false} FilterUpdate(list: seq<QueuedWrite>, i: nat, w: QueuedWrite, p: QueuedWrite -> bool)
    requires i < |list| && !p(list[i]) && !p(w)
    ensures Filter(list[i := w], p) == Filter(list, p)
  {
    var n := |list| - 1;
    if i < n {
      FilterUpdate(list[..n], i, w, p);
      assert list[i := w][..n] == list[..n][i := w];
    } else {
      assert list[i := w][..n] == list[..n];
    }
  }

  lemma LastStandsAlone(list: seq<QueuedWrite>)
    requires Ordered(list) && list != []
    ensures Ordered(list[..|list| - 1]) && list[|list| - 1] !in list[..|list| - 1]
  {
    var n := |list| - 1;
    forall v | v in list[..n] ensures v != list[n] {
      var i :| 0 <= i < n && list[i] == v;
      assert MayPrecede(list[i], list[n]);
    }
  }

  /** A filter that differs at one value only loses one element of an ordered list at most. */
  lemma {:induction false} FilterLosesOne(list: seq<QueuedWrite>, w: QueuedWrite, p: QueuedWrite -> bool, q: QueuedWrite -> bool)
    requires Ordered(list) && forall v :: v in list && v != w ==> p(v) == q(v)
    ensures |Filter(list, q)| >= |Filter(list, p)| - 1
  {
    hide Ordered;
    if list != [] {
      var n := |list| - 1;
      LastStandsAlone(list);
      assert list == list[..n] + [list[n]];
      if list[n] == w {
        SameFilter(list[..n], p, q);
      } else {
        FilterLosesOne(list[..n], w, p, q);
      }
    }
  }

  lemma {:induction false} FilterLosesExactly(list: seq<QueuedWrite>, w: QueuedWrite, p: QueuedWrite -> bool, q: QueuedWrite -> bool)
    requires Ordered(list) && (forall v :: v in list && v != w ==> p(v) == q(v)) && w in list && p(w) && !q(w)
    ensures |Filter(list, q)| == |Filter(list, p)| - 1
  {
    hide Ordered;
    var n := |list| - 1;
    LastStandsAlone(list);
    assert list == list[..n] + [list[n]];
    if list[n] == w {
      SameFilter(list[..n], p, q);
    } else {
      FilterLosesExactly(list[..n], w, p, q);
    }
  }

  lemma CopiesEnqueue(s: System, e: Event, b: string, photo: Payload)
    requires Sound(s) && Legal(s, e) && WithinCap(s, e) && e.Local? && e.command.Enqueue? && photo.PhotoUpload?
    ensures Copies(Next(s, e), b, photo) == Copies(s, b, photo) + if EnqueuesPhoto(e, b, photo) then 1 else 0
  {
    hide Execute;
    hide WriteQueueCore.Extend;
    var t, stored := Next(s, e), s.client.stored;
    StoredAfterEnqueue(s, e);
    var write, meta := e.command.write, e.command.meta;
    var added := QueuedWrite(meta.id, write.bookingId, write.payload, meta.now, 0);
    var p := (q: QueuedWrite) => Outstanding(s, q, b, photo);
    assert p(added) == EnqueuesPhoto(e, b, photo) by {
      NewIsNotInFlight(s, e, added);
    }
    ExtendedCopies(stored, write, meta, b, photo, p);
    SameOutstanding(s, t, t.client.stored, b, photo);
  }

  lemma NewIsNotInFlight(s: System, e: Event, added: QueuedWrite)
    requires Sound(s) && Legal(s, e) && e.Local? && e.command.Enqueue? && added.id == e.command.meta.id
    ensures s.client.flight.Some? ==> added !in s.client.flight.value.snapshot
  {
    if s.client.flight.Some? {
      forall w | w in s.client.flight.value.snapshot ensures w.id != added.id {
        assert Accounted(s, w);
      }
    }
  }

  /** What is outstanding in a list depends on the flight and its settled ids only. */
  lemma SameOutstanding(s: System, t: System, list: seq<QueuedWrite>, b: string, photo: Payload)
    requires s.client.flight == t.client.flight && s.settled == t.settled
    ensures OutstandingIn(s, list, b, photo) == OutstandingIn(t, list, b, photo)
  {
    SameFilter(list, (q: QueuedWrite) => Outstanding(s, q, b, photo), (q: QueuedWrite) => Outstanding(t, q, b, photo));
  }

  lemma ExtendedCopies(stored: seq<QueuedWrite>, write: NewWrite, meta: Meta, b: string, photo: Payload, p: QueuedWrite -> bool)
    requires photo.PhotoUpload? && forall q :: p(q) ==> HoldsPhoto(q, b, photo)
    ensures Filter(Extend(stored, write, meta), p)
         == Filter(stored, p)
            + if p(QueuedWrite(meta.id, write.bookingId, write.payload, meta.now, 0))
              then [QueuedWrite(meta.id, write.bookingId, write.payload, meta.now, 0)] else []
  {
    var added := QueuedWrite(meta.id, write.bookingId, write.payload, meta.now, 0);
    match write.payload
    case JobCardPatch(patch) =>
      var idx := PatchIndex(stored, write.bookingId);
      if idx < |stored| {
        FilterUpdate(stored, idx, Coalesced(stored[idx], patch), p);
      } else {
        FilterConcat(stored, [added], p);
      }
    case SignatureUpload(_) =>
      FilterTwice(stored, (w: QueuedWrite) => !IsSignatureFor(w, write.bookingId), p, p);
      FilterConcat(WithoutSignature(stored, write.bookingId), [added], p);
    case PhotoUpload(_, _, _, _) =>
      FilterConcat(stored, [added], p);
  }

  lemma CopiesDrop(s: System, e: Event, b: string, photo: Payload)
    requires Sound(s) && e.Local? && e.command.Drop? && photo.PhotoUpload?
    ensures Copies(Next(s, e), b, photo) == Copies(s, b, photo)
  {
    var stored, c, t := s.client.stored, e.command.bookingId, Next(s, e);
    var p := (q: QueuedWrite) => Outstanding(s, q, b, photo);
    OrderedFilter(stored, (w: QueuedWrite) => !IsPatchFor(w, c));
    TrimKeepsOrdered(WithoutJobCardPatch(stored, c));
    FilterTwice(stored, (w: QueuedWrite) => !IsPatchFor(w, c), p, p);
    SameOutstanding(s, t, t.client.stored, b, photo);
  }

  lemma AttachedAfterSend(s: System, reply: Reply, applied: bool, b: string, photo: Payload)
    requires Sending(s.client) && photo.PhotoUpload?
    ensures var w, t := Current(s.client), Next(s, Perform(reply, applied));
            Attached(t, b, photo)
            == Attached(s, b, photo) + if HoldsPhoto(w, b, photo) && (applied || reply.Accepted?) then 1 else 0
  {
    hide ClientNext;
    hide SettledAfter;
    hide JobCards.Apply;
  }

  lemma CopiesPerform(s: System, reply: Reply, applied: bool, b: string, photo: Payload)
    requires Sound(s) && photo.PhotoUpload? && !GivesUpOn(s, Perform(reply, applied), b)
    ensures Copies(Next(s, Perform(reply, applied)), b, photo) >= Copies(s, b, photo)
  {
    hide Sent;
    hide Attached;
    hide FlightSound;
    if Sending(s.client) {
      var f, w, t := s.client.flight.value, Current(s.client), Next(s, Perform(reply, applied));
      var p, q := (v: QueuedWrite) => Outstanding(s, v, b, photo), (v: QueuedWrite) => Outstanding(t, v, b, photo);
      AttachedAfterSend(s, reply, applied, b, photo);
      forall v | v != w || !HoldsPhoto(w, b, photo) || !Settles(w, reply) ensures p(v) == q(v) {
        OutstandingAfter(s, reply, applied, v, b, photo);
      }
      if HoldsPhoto(w, b, photo) && Settles(w, reply) {
        FilterLosesOne(s.client.stored, w, p, q);
      } else {
        SameFilter(s.client.stored, p, q);
      }
    }
  }

  /** A reply strikes no entry off what is outstanding but the one it settles. */
  lemma OutstandingAfter(s: System, reply: Reply, applied: bool, v: QueuedWrite, b: string, photo: Payload)
    requires Sound(s) && Sending(s.client)
    requires var w := Current(s.client); v != w || !HoldsPhoto(w, b, photo) || !Settles(w, reply)
    ensures Outstanding(Next(s, Perform(reply, applied)), v, b, photo) == Outstanding(s, v, b, photo)
  {
    hide Sent;
    var f, w := s.client.flight.value, Current(s.client);
    assert w in f.snapshot;
    if v in f.snapshot && v.id == w.id {
      SameId(f.snapshot, v, w);
    }
  }

  lemma {:induction false} RefreshedCopies(kept: seq<QueuedWrite>, list: seq<QueuedWrite>, p: QueuedWrite -> bool)
    requires forall w :: p(Refreshed(kept, w)) == p(w)
    ensures |Filter(RefreshedAll(kept, list), p)| == |Filter(list, p)|
  {
    hide Refreshed;
    if list != [] {
      var n := |list| - 1;
      RefreshedCopies(kept, list[..n], p);
      assert RefreshedAll(kept, list)[..n] == RefreshedAll(kept, list[..n]);
      assert RefreshedAll(kept, list)[n] == Refreshed(kept, list[n]);
    }
  }

  lemma CopiesFinish(s: System, b: string, photo: Payload)
    requires Sound(s)
    ensures Copies(Next(s, FinishFlush), b, photo) == Copies(s, b, photo)
  {
    hide Reconcile;
    hide FlightSound;
    hide RefreshedAll;
    var t := Next(s, FinishFlush);
    if s.client.flight.Some? && !Sending(s.client) {
      var f, stored := s.client.flight.value, s.client.stored;
      var p, holds := (q: QueuedWrite) => Outstanding(s, q, b, photo), (q: QueuedWrite) => HoldsPhoto(q, b, photo);
      var stays := (q: QueuedWrite) => !(q in f.snapshot && q.id in s.settled);
      FlushReconciliation(s);
      RefreshedCopies(f.kept, Filter(stored, stays), holds);
      FilterTwice(stored, stays, holds, p);
      SameFilter(t.client.stored, (q: QueuedWrite) => Outstanding(t, q, b, photo), holds);
    } else {
      SameOutstanding(s, t, t.client.stored, b, photo);
    }
  }

  /** Starting a flush or crashing forgets what the last one settled: nothing is struck off any more. */
  lemma {:induction false} FilterGrows(list: seq<QueuedWrite>, p: QueuedWrite -> bool, q: QueuedWrite -> bool)
    requires forall w :: p(w) ==> q(w)
    ensures |Filter(list, p)| <= |Filter(list, q)|
  {
    if list != [] {
      FilterGrows(list[..|list| - 1], p, q);
    }
  }

  lemma CopiesQuiet(s: System, e: Event, b: string, photo: Payload)
    requires (e.StartFlush? || e.DirectSave? || e.Crash?) && photo.PhotoUpload?
    ensures Copies(Next(s, e), b, photo) >= Copies(s, b, photo)
  {
    hide JobCards.Apply;
    var t := Next(s, e);
    assert SiteOf(t.server, b).photos == SiteOf(s.server, b).photos && t.client.stored == s.client.stored;
    FilterGrows(s.client.stored, (q: QueuedWrite) => Outstanding(s, q, b, photo), (q: QueuedWrite) => Outstanding(t, q, b, photo));
  }

  lemma CopiesStep(s: System, e: Event, b: string, photo: Payload)
    requires Sound(s) && Legal(s, e) && WithinCap(s, e) && !GivesUpOn(s, e, b) && photo.PhotoUpload?
    ensures Copies(Next(s, e), b, photo) >= Copies(s, b, photo) + if EnqueuesPhoto(e, b, photo) then 1 else 0
  {
    hide Sound;
    hide Next;
    hide Copies;
    match e
    case Local(command) =>
      if command.Enqueue? {
        CopiesEnqueue(s, e, b, photo);
      } else {
        CopiesDrop(s, e, b, photo);
      }
    case DirectSave(_, _) => CopiesQuiet(s, e, b, photo);
    case StartFlush => CopiesQuiet(s, e, b, photo);
    case Perform(reply, applied) => CopiesPerform(s, reply, applied, b, photo);
    case FinishFlush => CopiesFinish(s, b, photo);
    case Crash => CopiesQuiet(s, e, b, photo);
  }

  /** How often a photo was enqueued for a booking. */
  function Enqueued(events: seq<Event>, b: string, photo: Payload): nat {
    if events == [] then 0
    else Enqueued(events[..|events| - 1], b, photo) + if EnqueuesPhoto(events[|events| - 1], b, photo) then 1 else 0
  }

  /**
   * No photo is lost, counted. In every run without give-up or overflow a
   * photo is attached or still to be sent at least as often as it was enqueued;
   * with the queue empty it is attached at least that often.
   */
  lemma {:induction false} NoPhotoLost(server: map<string, Site>, events: seq<Event>, b: string, photo: Payload)
    requires LegalRun(Start(server), events) && NoLoss(Start(server), events, b) && photo.PhotoUpload?
    ensures var s := Run(Start(server), events);
            && Copies(s, b, photo) >= multiset(SiteOf(server, b).photos)[photo] + Enqueued(events, b, photo)
            && (s.client.stored == []
                ==> Attached(s, b, photo) >= multiset(SiteOf(server, b).photos)[photo] + Enqueued(events, b, photo))
  {
    hide Next;
    hide Outstanding;
    if events != [] {
      var n := |events| - 1;
      NoLossPrefix(Start(server), events, b);
      NoPhotoLost(server, events[..n], b, photo);
      ReachableIsSound(server, events[..n]);
      CopiesStep(Run(Start(server), events[..n]), events[n], b, photo);
    }
  }

  /** A flush has sent the entry but not yet struck it out of the stored list. */
  predicate SentNotStruck(s: System, q: QueuedWrite) {
    s.client.flight.Some? && q in s.client.flight.value.snapshot && q.id in s.settled
  }

  /**
   * The step makes a copy too many: the server applies a send of the photo
   * without the app learning it, or the app is killed between the photo's
   * reply and the end of the flush.
   */
  ghost predicate Duplicates(s: System, e: Event, b: string, photo: Payload) {
    || (e.Perform? && Sending(s.client) && HoldsPhoto(Current(s.client), b, photo) && e.applied && !e.reply.Accepted?)
    || (e.Crash? && exists q :: q in s.client.stored && HoldsPhoto(q, b, photo) && SentNotStruck(s, q))
  }

  ghost predicate NoDuplication(s: System, events: seq<Event>, b: string, photo: Payload) {
    forall i :: 0 <= i < |events| ==> !Duplicates(Run(s, events[..i]), events[i], b, photo)
  }

  /** Every photo the flush has still to send stands in the stored list as it is. */
  ghost predicate UnsentPhotosStored(s: System, b: string, photo: Payload) {
    s.client.flight.Some? ==>
      var f := s.client.flight.value;
      forall j :: f.next <= j < |f.snapshot| && HoldsPhoto(f.snapshot[j], b, photo) ==> f.snapshot[j] in s.client.stored
  }

  lemma PhotoStays(stored: seq<QueuedWrite>, write: NewWrite, meta: Meta, w: QueuedWrite)
    requires w in stored && w.payload.PhotoUpload?
    ensures w in Extend(stored, write, meta)
  {
    if Coalesces(stored, write) {
      var i :| 0 <= i < |stored| && stored[i] == w;
      assert Extend(stored, write, meta)[i] == w;
    }
  }

  lemma StoredPhotosStay(s: System, e: Event, w: QueuedWrite)
    requires Sound(s) && Legal(s, e) && WithinCap(s, e) && e.Local? && w in s.client.stored && w.payload.PhotoUpload?
    ensures w in Next(s, e).client.stored
  {
    hide WriteQueueCore.Extend;
    if e.command.Enqueue? {
      StoredAfterEnqueue(s, e);
      PhotoStays(s.client.stored, e.command.write, e.command.meta, w);
    } else {
      OrderedFilter(s.client.stored, (v: QueuedWrite) => !IsPatchFor(v, e.command.bookingId));
      TrimKeepsOrdered(WithoutJobCardPatch(s.client.stored, e.command.bookingId));
    }
  }

  lemma UnsentPhotosStep(s: System, e: Event, b: string, photo: Payload)
    requires Sound(s) && Legal(s, e) && WithinCap(s, e) && photo.PhotoUpload? && UnsentPhotosStored(s, b, photo)
    ensures UnsentPhotosStored(Next(s, e), b, photo)
  {
    hide Sound;
    hide Execute;
    hide Sent;
    hide Reconcile;
    if e.Local? && s.client.flight.Some? {
      var f := s.client.flight.value;
      forall j | f.next <= j < |f.snapshot| && HoldsPhoto(f.snapshot[j], b, photo)
        ensures f.snapshot[j] in Next(s, e).client.stored
      {
        StoredPhotosStay(s, e, f.snapshot[j]);
      }
    }
  }

  lemma ExactPerform(s: System, reply: Reply, applied: bool, b: string, photo: Payload)
    requires Sound(s) && photo.PhotoUpload? && !GivesUpOn(s, Perform(reply, applied), b)
    requires UnsentPhotosStored(s, b, photo)
    ensures Copies(Next(s, Perform(reply, applied)), b, photo) == Copies(s, b, photo)
            <==> !Duplicates(s, Perform(reply, applied), b, photo)
  {
    hide Sent;
    hide Attached;
    hide FlightSound;
    if Sending(s.client) {
      var f, w, t := s.client.flight.value, Current(s.client), Next(s, Perform(reply, applied));
      var p, q := (v: QueuedWrite) => Outstanding(s, v, b, photo), (v: QueuedWrite) => Outstanding(t, v, b, photo);
      AttachedAfterSend(s, reply, applied, b, photo);
      forall v | v != w || !HoldsPhoto(w, b, photo) || !Settles(w, reply) ensures p(v) == q(v) {
        OutstandingAfter(s, reply, applied, v, b, photo);
      }
      if HoldsPhoto(w, b, photo) && Settles(w, reply) {
        UnsentIsOpen(f, s.settled, f.next);
        FilterLosesExactly(s.client.stored, w, p, q);
      } else {
        SameFilter(s.client.stored, p, q);
      }
    }
  }

  lemma ExactQuiet(s: System, e: Event, b: string, photo: Payload)
    requires (e.StartFlush? || e.DirectSave?) && photo.PhotoUpload?
    ensures Copies(Next(s, e), b, photo) == Copies(s, b, photo)
  {
    hide JobCards.Apply;
    var t := Next(s, e);
    assert SiteOf(t.server, b).photos == SiteOf(s.server, b).photos && t.client.stored == s.client.stored;
    SameFilter(s.client.stored, (q: QueuedWrite) => Outstanding(s, q, b, photo), (q: QueuedWrite) => Outstanding(t, q, b, photo));
  }

  /** A wider filter keeps as many elements exactly when it keeps no other one. */
  lemma {:induction false} FilterGrowsIff(list: seq<QueuedWrite>, p: QueuedWrite -> bool, q: QueuedWrite -> bool)
    requires forall w :: p(w) ==> q(w)
    ensures |Filter(list, p)| == |Filter(list, q)| <==> forall w :: w in list && q(w) ==> p(w)
  {
    if list != [] {
      var n := |list| - 1;
      FilterGrowsIff(list[..n], p, q);
      FilterGrows(list[..n], p, q);
      assert list == list[..n] + [list[n]];
    }
  }

  lemma ExactCrash(s: System, b: string, photo: Payload)
    ensures Copies(Next(s, Crash), b, photo) == Copies(s, b, photo) <==> !Duplicates(s, Crash, b, photo)
  {
    var t, stored := Next(s, Crash), s.client.stored;
    var p, q := (v: QueuedWrite) => Outstanding(s, v, b, photo), (v: QueuedWrite) => Outstanding(t, v, b, photo);
    assert forall v :: q(v) == HoldsPhoto(v, b, photo) && p(v) == (HoldsPhoto(v, b, photo) && !SentNotStruck(s, v));
    FilterGrowsIff(stored, p, q);
    if v :| v in stored && HoldsPhoto(v, b, photo) && SentNotStruck(s, v) {
      assert q(v) && !p(v);
    }
  }

  lemma ExactStep(s: System, e: Event, b: string, photo: Payload)
    requires Sound(s) && Legal(s, e) && WithinCap(s, e) && !GivesUpOn(s, e, b) && photo.PhotoUpload?
    requires UnsentPhotosStored(s, b, photo)
    ensures Copies(Next(s, e), b, photo) == Copies(s, b, photo) + (if EnqueuesPhoto(e, b, photo) then 1 else 0)
            <==> !Duplicates(s, e, b, photo)
  {
    hide Sound;
    hide Next;
    hide Copies;
    match e
    case Local(command) =>
      if command.Enqueue? {
        CopiesEnqueue(s, e, b, photo);
      } else {
        CopiesDrop(s, e, b, photo);
      }
    case DirectSave(_, _) => ExactQuiet(s, e, b, photo);
    case StartFlush => ExactQuiet(s, e, b, photo);
    case Perform(reply, applied) => ExactPerform(s, reply, applied, b, photo);
    case FinishFlush => CopiesFinish(s, b, photo);
    case Crash => ExactCrash(s, b, photo);
  }

  lemma DuplicationPrefix(s: System, events: seq<Event>, b: string, photo: Payload)
    requires events != []
    ensures var n := |events| - 1;
            NoDuplication(s, events, b, photo)
            <==> NoDuplication(s, events[..n], b, photo) && !Duplicates(Run(s, events[..n]), events[n], b, photo)
  {
    hide Run;
    hide Duplicates;
    var n := |events| - 1;
    forall i | 0 <= i < n ensures events[..n][..i] == events[..i] {
    }
    if NoDuplication(s, events[..n], b, photo) && !Duplicates(Run(s, events[..n]), events[n], b, photo) {
      forall i | 0 <= i < |events| ensures !Duplicates(Run(s, events[..i]), events[i], b, photo) {
        if i < n {
          assert !Duplicates(Run(s, events[..n][..i]), events[..n][i], b, photo);
        }
      }
    }
  }

  /**
   * Exactly once, exactly. In every run without loss a photo is attached or
   * still to be sent exactly as often as it was enqueued, if and only if no
   * send of this photo was applied without the app learning it, and the app
   * was not killed between the photo's reply and the end of its flush. Lost
   * answers and kills elsewhere do not matter. With the queue empty "attached
   * or still to be sent" is "attached".
   */
  lemma {:induction false} PhotosExactlyOnceIff(server: map<string, Site>, events: seq<Event>, b: string, photo: Payload)
    requires LegalRun(Start(server), events) && NoLoss(Start(server), events, b) && photo.PhotoUpload?
    ensures var s := Run(Start(server), events);
            && UnsentPhotosStored(s, b, photo)
            && (Copies(s, b, photo) == multiset(SiteOf(server, b).photos)[photo] + Enqueued(events, b, photo)
                <==> NoDuplication(Start(server), events, b, photo))
            && (s.client.stored == [] ==> Copies(s, b, photo) == Attached(s, b, photo))
  {
    hide Next;
    hide Outstanding;
    hide UnsentPhotosStored;
    hide Duplicates;
    hide NoLoss;
    hide LegalRun;
    if events == [] {
      NothingUnsent(server, b, photo);
    } else {
      var n := |events| - 1;
      var s := Run(Start(server), events[..n]);
      NoLossPrefix(Start(server), events, b);
      DuplicationPrefix(Start(server), events, b, photo);
      PhotosExactlyOnceIff(server, events[..n], b, photo);
      NoPhotoLost(server, events[..n], b, photo);
      ReachableIsSound(server, events[..n]);
      ExactStep(s, events[n], b, photo);
      CopiesStep(s, events[n], b, photo);
      UnsentPhotosStep(s, events[n], b, photo);
    }
  }

  /** No answer is lost and the app is not killed. */
  predicate Faithful(e: Event) {
    !e.Crash? && (e.Perform? ==> !e.applied || e.reply.Accepted?)
  }

  /** In particular in runs in which no answer is lost and the app is not killed. */
  lemma PhotosExactlyOnce(server: map<string, Site>, events: seq<Event>, b: string, photo: Payload)
    requires LegalRun(Start(server), events) && NoLoss(Start(server), events, b) && photo.PhotoUpload?
    requires forall e :: e in events ==> Faithful(e)
    ensures var s := Run(Start(server), events);
            && Copies(s, b, photo) == multiset(SiteOf(server, b).photos)[photo] + Enqueued(events, b, photo)
            && (s.client.stored == []
                ==> Attached(s, b, photo) == multiset(SiteOf(server, b).photos)[photo] + Enqueued(events, b, photo))
  {
    hide Run;
    hide Copies;
    PhotosExactlyOnceIff(server, events, b, photo);
    forall i | 0 <= i < |events| ensures !Duplicates(Run(Start(server), events[..i]), events[i], b, photo) {
      assert Faithful(events[i]);
    }
  }

  lemma NothingUnsent(server: map<string, Site>, b: string, photo: Payload)
    ensures UnsentPhotosStored(Start(server), b, photo)
  {
  }

  const SNAPSHOT_PHOTO := PhotoUpload("file:1", "image/jpeg", PartsPhoto, None)

  /** The photo is queued and a flush is about to send it, the server holding `photos` already. */
  function AboutToSend(photos: seq<Payload>): System {
    var w := QueuedWrite("w1", "b1", SNAPSHOT_PHOTO, 1, 0);
    System(Client([w], Some(Flight([w], 0, [], 0, 0))),
           if photos == [] then map[] else map["b1" := Site(BLANK_CARD, photos, None)], {"w1"}, 1, map[], {})
  }

  lemma AboutToSendIsReachable()
    ensures var events := [Local(Enqueue(NewWrite("b1", SNAPSHOT_PHOTO), Meta("w1", 1))), StartFlush];
            LegalRun(Start(map[]), events) && Run(Start(map[]), events) == AboutToSend([])
  {
    var enqueue := Local(Enqueue(NewWrite("b1", SNAPSHOT_PHOTO), Meta("w1", 1)));
    var events := [enqueue, StartFlush];
    assert events[..1] == [enqueue] && [enqueue][..0] == [] && events[..0] == [];
    assert Run(Start(map[]), [enqueue]) == Next(Start(map[]), enqueue);
    assert Extend([], NewWrite("b1", SNAPSHOT_PHOTO), Meta("w1", 1)) == [QueuedWrite("w1", "b1", SNAPSHOT_PHOTO, 1, 0)];
  }

  lemma KeptForLater(w: QueuedWrite)
    ensures Reconcile([w], [w], [w]) == [w]
  {
    assert [w][..0] == [];
    assert Lookup([w], w.id) == Some(w);
    assert Reconcile([w], [w], []) == [];
  }

  /** The answer to the send is lost: the photo is attached, and the next flush is about to send it again. */
  lemma LostAnswerSendsAgain()
    ensures Next(Next(Next(AboutToSend([]), Perform(NetworkError, true)), FinishFlush), StartFlush) == AboutToSend([SNAPSHOT_PHOTO])
  {
    hide Reconcile;
    var w := QueuedWrite("w1", "b1", SNAPSHOT_PHOTO, 1, 0);
    var sent := Next(AboutToSend([]), Perform(NetworkError, true));
    assert [w][0..] == [w] && [] + [w] == [w];
    assert sent.client == Client([w], Some(Flight([w], 1, [w], 0, 0)));
    assert sent.server == map["b1" := Site(BLANK_CARD, [SNAPSHOT_PHOTO], None)] by {
      assert EMPTY_SITE.photos + [SNAPSHOT_PHOTO] == [SNAPSHOT_PHOTO];
    }
    KeptForLater(w);
    assert Next(sent, FinishFlush).client == Client([w], None);
  }

  /** Then the photo is attached twice though enqueued once. */
  lemma PhotoAttachedTwice()
    ensures var again := Next(Next(Next(AboutToSend([]), Perform(NetworkError, true)), FinishFlush), StartFlush);
            Attached(Next(again, Perform(Accepted, true)), "b1", SNAPSHOT_PHOTO) == 2
  {
    LostAnswerSendsAgain();
    AttachedAfterSend(AboutToSend([SNAPSHOT_PHOTO]), Accepted, true, "b1", SNAPSHOT_PHOTO);
  }

  // ---------------------------------------------------------------- dropping a queued patch after a direct save

  /** Neither an enqueue nor a direct save for `b`: the app has nothing new to say about its card. */
  predicate Silent(e: Event, b: string) {
    !EnqueuesPatch(e, b) && !(e.DirectSave? && e.bookingId == b)
  }

  ghost predicate SilentRun(events: seq<Event>, b: string) {
    forall e :: e in events ==> Silent(e, b)
  }

  /** A flush in flight still holds a patch of `b` that sending would change the card by. */
  ghost predicate StalePatchUnsent(s: System, b: string) {
    s.client.flight.Some? &&
    var f := s.client.flight.value;
    exists j :: f.next <= j < |f.snapshot| && IsPatchFor(f.snapshot[j], b)
      && Apply(CardOf(s, b), f.snapshot[j].payload.patch) != CardOf(s, b)
  }

  /** No patch of `b` is queued. */
  ghost predicate Dropped(s: System, b: string) {
    forall w :: w in s.client.stored ==> !IsPatchFor(w, b)
  }

  lemma DropEmptiesQueue(s: System, b: string)
    ensures Dropped(Next(s, Local(Drop(b))), b)
  {
    var stored := s.client.stored;
    var next := WithoutJobCardPatch(stored, b);
    if |next| == |stored| {
      FilterFull(stored, (w: QueuedWrite) => !IsPatchFor(w, b));
    } else {
      assert forall w :: w in TrimWrites(next) ==> w in next;
    }
  }

  lemma {:induction false} FilterFull(list: seq<QueuedWrite>, p: QueuedWrite -> bool)
    requires |Filter(list, p)| == |list|
    ensures forall w :: w in list ==> p(w)
  {
    if list != [] {
      FilterFull(list[..|list| - 1], p);
      assert list == list[..|list| - 1] + [list[|list| - 1]];
    }
  }

  lemma LocalStaysDropped(s: System, e: Event, b: string)
    requires Sound(s) && Dropped(s, b) && e.Local? && Legal(s, e) && Silent(e, b)
    ensures Dropped(Next(s, e), b)
  {
    hide WriteQueueCore.Extend;
    var stored := s.client.stored;
    match e.command
    case Enqueue(write, meta) =>
      ExtendEntries(stored, write, meta);
      assert forall w :: w in Execute(stored, e.command) ==> w in Extend(stored, write, meta);
    case Drop(_) =>
      assert forall w :: w in Execute(stored, e.command) ==> w in stored;
  }

  /** With the queue clear of `b` and nothing stale in flight, a silent step leaves the card of `b` alone. */
  lemma SettledStep(s: System, e: Event, b: string)
    requires Sound(s) && Legal(s, e) && Silent(e, b) && Dropped(s, b) && !StalePatchUnsent(s, b)
    ensures Sound(Next(s, e)) && Dropped(Next(s, e), b) && !StalePatchUnsent(Next(s, e), b)
    ensures CardOf(Next(s, e), b) == CardOf(s, b)
  {
    hide Sound;
    hide Execute;
    hide JobCards.Apply;
    hide Reconcile;
    StepKeepsSound(s, e);
    match e
    case Local(_) => LocalStaysDropped(s, e, b);
    case DirectSave(_, _) => assert CardOf(Next(s, e), b) == CardOf(s, b);
    case StartFlush =>
    case Perform(reply, applied) => SettledPerform(s, reply, applied, b);
    case FinishFlush => SettledFinish(s, b);
    case Crash =>
  }

  lemma SettledPerform(s: System, reply: Reply, applied: bool, b: string)
    requires Sound(s) && !StalePatchUnsent(s, b)
    ensures !StalePatchUnsent(Next(s, Perform(reply, applied)), b)
    ensures CardOf(Next(s, Perform(reply, applied)), b) == CardOf(s, b)
  {
    hide Sent;
    hide JobCards.Apply;
    if Sending(s.client) {
      CardAfterSend(s, reply, applied, b);
    }
  }

  lemma SettledFinish(s: System, b: string)
    requires Sound(s) && Dropped(s, b)
    ensures Dropped(Next(s, FinishFlush), b)
  {
    hide Merged;
    if s.client.flight.Some? && !Sending(s.client) {
      MergedIsStored(s);
      forall r | r in Merged(s) ensures !IsPatchFor(r, b) {
        MergedOrigin(s, r);
      }
    }
  }

  lemma {:induction false} SettledRun(s: System, events: seq<Event>, b: string)
    requires Sound(s) && LegalRun(s, events) && SilentRun(events, b) && Dropped(s, b) && !StalePatchUnsent(s, b)
    ensures Sound(Run(s, events)) && Dropped(Run(s, events), b) && !StalePatchUnsent(Run(s, events), b)
    ensures CardOf(Run(s, events), b) == CardOf(s, b)
  {
    hide Sound;
    hide Dropped;
    hide StalePatchUnsent;
    if events != [] {
      LegalPrefix(s, events);
      SettledRun(s, events[..|events| - 1], b);
      SettledStep(Run(s, events[..|events| - 1]), events[|events| - 1], b);
    }
  }

  /** Every send until the stale patch succeeding, the stale patch lands on the card. */
  function Sends(n: nat): seq<Event> {
    seq(n, _ => Perform(Accepted, true))
  }

  lemma {:induction false} SendsReach(s: System, b: string, j: nat, n: nat)
    requires Sound(s) && s.client.flight.Some?
    requires var f := s.client.flight.value;
             f.next <= j < |f.snapshot| && IsPatchFor(f.snapshot[j], b) && n <= j - f.next
    ensures var f, t := s.client.flight.value, Run(s, Sends(n));
            && t.client.flight.Some?
            && t.client.flight.value.snapshot == f.snapshot && t.client.flight.value.next == f.next + n
            && CardOf(t, b) == CardOf(s, b)
  {
    hide Sound;
    hide Sent;
    hide JobCards.Apply;
    if n > 0 {
      assert Sends(n)[..n - 1] == Sends(n - 1);
      SendsReach(s, b, j, n - 1);
      var t, f := Run(s, Sends(n - 1)), s.client.flight.value;
      CardAfterSend(t, Accepted, true, b);
      SnapshotOrdered(s);
      NoOtherPatch(f.snapshot, f.next + n - 1, j, b);
    }
  }

  lemma NoOtherPatch(list: seq<QueuedWrite>, i: nat, j: nat, b: string)
    requires Ordered(list) && i < j < |list| && IsPatchFor(list[j], b)
    ensures !IsPatchFor(list[i], b)
  {
    assert MayPrecede(list[i], list[j]);
  }

  lemma SnapshotOrdered(s: System)
    requires Sound(s) && s.client.flight.Some?
    ensures Ordered(s.client.flight.value.snapshot)
  {
  }

  lemma SendsAreLegal(s: System, n: nat, b: string)
    ensures LegalRun(s, Sends(n)) && SilentRun(Sends(n), b)
  {
  }

  lemma StaleLands(s: System, b: string) returns (events: seq<Event>)
    requires Sound(s) && StalePatchUnsent(s, b)
    ensures LegalRun(s, events) && SilentRun(events, b) && CardOf(Run(s, events), b) != CardOf(s, b)
  {
    hide Sound;
    hide Sent;
    hide JobCards.Apply;
    hide LegalRun;
    hide SilentRun;
    hide ClientNext;
    var f := s.client.flight.value;
    var j :| f.next <= j < |f.snapshot| && IsPatchFor(f.snapshot[j], b)
             && Apply(CardOf(s, b), f.snapshot[j].payload.patch) != CardOf(s, b);
    var n := j - f.next;
    SendsReach(s, b, j, n);
    events := Sends(n + 1);
    assert events[..n] == Sends(n);
    SendsAreLegal(s, n + 1, b);
    CardAfterSend(Run(s, Sends(n)), Accepted, true, b);
  }

  /**
   * After a direct save the app drops the queued patch so that a stale one
   * cannot overwrite the save. That works, in every continuation in which the
   * app has nothing new to say about the booking, exactly when no flush in
   * flight still holds a patch of the booking that would change the card: the
   * drop cannot reach the flush's snapshot.
   */
  lemma DropProtectsDirectSaveIff(s: System, b: string, patch: Patch)
    requires Sound(s)
    ensures var t := Next(Next(s, DirectSave(b, patch)), Local(Drop(b)));
            (forall events :: LegalRun(t, events) && SilentRun(events, b) ==> CardOf(Run(t, events), b) == CardOf(t, b))
            <==> !StalePatchUnsent(t, b)
  {
    hide StalePatchUnsent;
    hide LegalRun;
    hide SilentRun;
    hide Run;
    hide Sound;
    var saved := Next(s, DirectSave(b, patch));
    var t := Next(saved, Local(Drop(b)));
    StepKeepsSound(s, DirectSave(b, patch));
    StepKeepsSound(saved, Local(Drop(b)));
    DropEmptiesQueue(saved, b);
    if StalePatchUnsent(t, b) {
      var events := StaleLands(t, b);
    } else {
      forall events | LegalRun(t, events) && SilentRun(events, b)
        ensures CardOf(Run(t, events), b) == CardOf(t, b)
      {
        SettledRun(t, events, b);
      }
    }
  }

  const DRAFT := Patch(map["diagnosis" := JStr("draft")], None, None)
  const FINAL := Patch(map["diagnosis" := JStr("final")], None, None)

  /** A flush has taken its snapshot of a queued draft when the final version is saved directly. */
  const OVERTAKEN: System :=
    System(
      Client([QueuedWrite("w1", "b1", JobCardPatch(DRAFT), 1, 0)],
             Some(Flight([QueuedWrite("w1", "b1", JobCardPatch(DRAFT), 1, 0)], 0, [], 0, 0))),
      map[], {"w1"}, 1, map[], {})

  lemma OvertakenIsReachable()
    ensures var events := [Local(Enqueue(NewWrite("b1", JobCardPatch(DRAFT)), Meta("w1", 1))), StartFlush];
            LegalRun(Start(map[]), events) && Run(Start(map[]), events) == OVERTAKEN
  {
    var enqueue := Local(Enqueue(NewWrite("b1", JobCardPatch(DRAFT)), Meta("w1", 1)));
    var events := [enqueue, StartFlush];
    assert events[..1] == [enqueue] && [enqueue][..0] == [] && events[..0] == [];
    assert Run(Start(map[]), [enqueue]) == Next(Start(map[]), enqueue);
    assert Extend([], NewWrite("b1", JobCardPatch(DRAFT)), Meta("w1", 1))
        == [QueuedWrite("w1", "b1", JobCardPatch(DRAFT), 1, 0)];
  }

  function SavedAndDropped(): System {
    Next(Next(OVERTAKEN, DirectSave("b1", FINAL)), Local(Drop("b1")))
  }

  lemma DraftStillUnsent()
    ensures Sending(SavedAndDropped().client) && SavedAndDropped().client.flight == OVERTAKEN.client.flight
    ensures Current(SavedAndDropped().client) == QueuedWrite("w1", "b1", JobCardPatch(DRAFT), 1, 0)
    ensures CardOf(SavedAndDropped(), "b1") == Apply(BLANK_CARD, FINAL)
  {
    hide JobCards.Apply;
    hide Execute;
  }

  lemma DraftOverFinal()
    ensures Apply(BLANK_CARD, FINAL) == Effect(FINAL)
    ensures At(Apply(Effect(FINAL), DRAFT), Field("diagnosis")) == Some(JStr("draft"))
    ensures At(Effect(FINAL), Field("diagnosis")) == Some(JStr("final"))
  {
    hide Effect;
    BlankOverride(Effect(FINAL));
    EffectAt(DRAFT, Field("diagnosis"));
    EffectAt(FINAL, Field("diagnosis"));
    AtOverride(Effect(FINAL), Effect(DRAFT), Field("diagnosis"));
  }

  /** Dropping the queued draft then does not keep it from overwriting the final version. */
  lemma StaleDraftOverwritesDirectSave()
    ensures var t := SavedAndDropped();
            && StalePatchUnsent(t, "b1")
            && CardOf(t, "b1") == Effect(FINAL)
            && At(CardOf(Next(t, Perform(Accepted, true)), "b1"), Field("diagnosis")) == Some(JStr("draft"))
  {
    hide SavedAndDropped;
    hide Effect;
    hide JobCards.Apply;
    hide CardOf;
    var t := SavedAndDropped();
    DraftStillUnsent();
    DraftOverFinal();
    CardAfterSend(t, Accepted, true, "b1");
    var f := t.client.flight.value;
    assert IsPatchFor(f.snapshot[0], "b1") && Apply(CardOf(t, "b1"), f.snapshot[0].payload.patch) != CardOf(t, "b1");
  }
}
