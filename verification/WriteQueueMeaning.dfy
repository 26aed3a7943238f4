/**
 * Coalescing preserves meaning: draining the queue that `appendWrite` builds
 * compared with replaying the uncoalesced log of writes.
 */
module WriteQueueMeaning {
  import opened Basics
  import opened JobCards
  import opened WriteQueueCore

  // ---------------------------------------------------------------- what one append does

  lemma PatchMember(queue: seq<QueuedWrite>, w: QueuedWrite, b: string)
    requires Ordered(queue) && w in queue && IsPatchFor(w, b)
    ensures PendingPatch(queue, b) == Some(w.payload.patch)
  {
    var i :| 0 <= i < |queue| && queue[i] == w;
    PendingPatchIs(queue, b, i);
  }

  lemma SignatureMember(queue: seq<QueuedWrite>, w: QueuedWrite, b: string)
    requires Ordered(queue) && w in queue && IsSignatureFor(w, b)
    ensures PendingSignature(queue, b) == Some(w.payload.signatureUri)
  {
    var i :| 0 <= i < |queue| && queue[i] == w;
    PendingSignatureIs(queue, b, i);
  }

  /** Two ordered queues with the same patches for `b` have the same pending patch. */
  lemma SamePatches(q1: seq<QueuedWrite>, q2: seq<QueuedWrite>, b: string)
    requires Ordered(q1) && Ordered(q2)
    requires forall w :: IsPatchFor(w, b) ==> (w in q1 <==> w in q2)
    ensures PendingPatch(q1, b) == PendingPatch(q2, b)
  {
    var i := PatchIndex(q1, b);
    if i < |q1| {
      PatchMember(q2, q1[i], b);
    } else {
      NoPendingPatch(q1, b);
      PendingPatchNone(q2, b);
    }
  }

  lemma SameSignatures(q1: seq<QueuedWrite>, q2: seq<QueuedWrite>, b: string)
    requires Ordered(q1) && Ordered(q2)
    requires forall w :: IsSignatureFor(w, b) ==> (w in q1 <==> w in q2)
    ensures PendingSignature(q1, b) == PendingSignature(q2, b)
  {
    var i := FirstIndex(q1, (w: QueuedWrite) => IsSignatureFor(w, b));
    if i < |q1| {
      SignatureMember(q2, q1[i], b);
    } else {
      NoPendingSignature(q1, b);
      PendingSignatureNone(q2, b);
    }
  }

  function AfterPatch(pending: Option<Patch>, patch: Patch): Patch {
    match pending
    case None => patch
    case Some(prev) => Merge(prev, patch)
  }

  lemma ExtendPatch(queue: seq<QueuedWrite>, write: NewWrite, meta: Meta, b: string)
    requires Ordered(queue) && FreshFor(queue, meta)
    ensures PendingPatch(Extend(queue, write, meta), b) ==
            if write.payload.JobCardPatch? && write.bookingId == b
            then Some(AfterPatch(PendingPatch(queue, b), write.payload.patch))
            else PendingPatch(queue, b)
  {
    var q := Extend(queue, write, meta);
    var added := QueuedWrite(meta.id, write.bookingId, write.payload, meta.now, 0);
    ExtendKeepsOrdered(queue, write, meta);
    if Coalesces(queue, write) {
      var idx := PatchIndex(queue, write.bookingId);
      var merged := Coalesced(queue[idx], write.payload.patch);
      if write.bookingId == b {
        assert q[idx] == merged;
        PatchMember(q, merged, b);
      } else {
        UpdateElsewhere(queue, idx, merged, b);
      }
    } else if write.payload.SignatureUpload? {
      SamePatches(queue, q, b);
    } else {
      PatchSnoc(queue, added, b);
    }
  }

  /** Replacing an entry of another booking leaves the pending patch of `b` alone. */
  lemma UpdateElsewhere(queue: seq<QueuedWrite>, idx: nat, w: QueuedWrite, b: string)
    requires Ordered(queue) && idx < |queue| && SameShape(queue[idx], w) && w.bookingId != b
    ensures PendingPatch(queue[idx := w], b) == PendingPatch(queue, b)
  {
    OrderedUpdate(queue, idx, w);
    var q := queue[idx := w];
    forall v | IsPatchFor(v, b) ensures v in queue <==> v in q {
      if v in queue {
        var i :| 0 <= i < |queue| && queue[i] == v;
        assert q[i] == v;
      }
    }
    SamePatches(queue, q, b);
  }

  lemma ExtendSignature(queue: seq<QueuedWrite>, write: NewWrite, meta: Meta, b: string)
    requires Ordered(queue) && FreshFor(queue, meta)
    ensures PendingSignature(Extend(queue, write, meta), b) ==
            if write.payload.SignatureUpload? && write.bookingId == b
            then Some(write.payload.signatureUri)
            else PendingSignature(queue, b)
  {
    var q := Extend(queue, write, meta);
    var added := QueuedWrite(meta.id, write.bookingId, write.payload, meta.now, 0);
    ExtendKeepsOrdered(queue, write, meta);
    if write.payload.SignatureUpload? && write.bookingId == b {
      assert added in q;
      SignatureMember(q, added, b);
    } else {
      forall v | IsSignatureFor(v, b) ensures v in queue <==> v in q {
        if v in queue && Coalesces(queue, write) {
          var i :| 0 <= i < |queue| && queue[i] == v;
          assert q[i] == v;
        }
      }
      SameSignatures(queue, q, b);
    }
  }

  lemma {:induction false} SignaturelessPhotos(queue: seq<QueuedWrite>, c: string, b: string)
    ensures PendingPhotos(WithoutSignature(queue, c), b) == PendingPhotos(queue, b)
  {
    if queue != [] {
      var init, last := queue[..|queue| - 1], queue[|queue| - 1];
      SignaturelessPhotos(init, c, b);
      if !IsSignatureFor(last, c) {
        assert WithoutSignature(queue, c) == WithoutSignature(init, c) + [last];
        PhotosSnoc(WithoutSignature(init, c), last, b);
      } else {
        assert WithoutSignature(queue, c) == WithoutSignature(init, c);
      }
    }
  }

  lemma {:induction false} UpdatePhotos(queue: seq<QueuedWrite>, idx: nat, w: QueuedWrite, b: string)
    requires idx < |queue| && !w.payload.PhotoUpload? && !queue[idx].payload.PhotoUpload?
    ensures PendingPhotos(queue[idx := w], b) == PendingPhotos(queue, b)
  {
    var n := |queue| - 1;
    if idx < n {
      UpdatePhotos(queue[..n], idx, w, b);
      assert queue[idx := w][..n] == queue[..n][idx := w];
    } else {
      assert queue[idx := w][..n] == queue[..n];
    }
  }

  lemma ExtendPhotos(queue: seq<QueuedWrite>, write: NewWrite, meta: Meta, b: string)
    ensures PendingPhotos(Extend(queue, write, meta), b) ==
            PendingPhotos(queue, b)
            + if write.payload.PhotoUpload? && write.bookingId == b then [write.payload] else []
  {
    var added := QueuedWrite(meta.id, write.bookingId, write.payload, meta.now, 0);
    match write.payload
    case JobCardPatch(patch) =>
      var idx := PatchIndex(queue, write.bookingId);
      if idx < |queue| {
        UpdatePhotos(queue, idx, Coalesced(queue[idx], patch), b);
      } else {
        PhotosSnoc(queue, added, b);
      }
    case SignatureUpload(_) =>
      SignaturelessPhotos(queue, write.bookingId, b);
      PhotosSnoc(WithoutSignature(queue, write.bookingId), added, b);
    case PhotoUpload(_, _, _, _) =>
      PhotosSnoc(queue, added, b);
  }

  // ---------------------------------------------------------------- whole logs

  datatype Request = Request(write: NewWrite, meta: Meta)

  /** The queue after a sequence of enqueues from empty. */
  function Build(log: seq<Request>): seq<QueuedWrite> {
    if log == [] then []
    else AppendWrite(Build(log[..|log| - 1]), log[|log| - 1].write, log[|log| - 1].meta)
  }

  function Writes(log: seq<Request>): seq<NewWrite> {
    seq(|log|, i requires 0 <= i < |log| => log[i].write)
  }

  /** Ids are fresh, the clock does not go back, and no enqueue reaches the cap. */
  ghost predicate UnderCap(log: seq<Request>) {
    forall i :: 0 <= i < |log| ==>
      FreshFor(Build(log[..i]), log[i].meta)
      && |Extend(Build(log[..i]), log[i].write, log[i].meta)| <= MAX_WRITE_QUEUE
  }

  /** The job-card patches logged for `b`, in order. */
  function PatchesOf(log: seq<Request>, b: string): seq<Patch> {
    if log == [] then []
    else
      var w := log[|log| - 1].write;
      PatchesOf(log[..|log| - 1], b)
      + if w.payload.JobCardPatch? && w.bookingId == b then [w.payload.patch] else []
  }

  function ReplayPatches(card: Card, patches: seq<Patch>): Card {
    if patches == [] then card
    else Apply(ReplayPatches(card, patches[..|patches| - 1]), patches[|patches| - 1])
  }

  /** `a`'s fields, readings and checklist are all present, in some version, in `p`. */
  predicate Spans(p: Patch, a: Patch) {
    && a.fields.Keys <= p.fields.Keys
    && (a.readings.Some? ==> p.readings.Some?)
    && (a.checklist.Some? ==> p.checklist.Some?)
  }

  lemma SpannedKeys(p: Patch, a: Patch)
    requires Spans(p, a)
    ensures Covers(a, p) <==> Effect(a).Keys <= Effect(p).Keys
  {
    CoversKeys(a, p);
    forall x: Cell ensures x in Effect(Merge(a, p)) <==> x in Effect(p) {
      EffectAt(Merge(a, p), x);
      EffectAt(p, x);
    }
  }

  const EMPTY_PATCH := Patch(map[], None, None)

  /** The patches merged into one, in order: `{ ...p0, ...p1, ... }`. */
  function MergeAll(patches: seq<Patch>): Patch {
    if patches == [] then EMPTY_PATCH
    else Merge(MergeAll(patches[..|patches| - 1]), patches[|patches| - 1])
  }

  /** Every reading and answer of every patch survives when the patches are merged into one. */
  ghost predicate AllCovered(patches: seq<Patch>) {
    forall a :: a in patches ==> Covers(a, MergeAll(patches))
  }

  lemma MergeAllSnoc(patches: seq<Patch>, patch: Patch)
    ensures MergeAll(patches + [patch]) == Merge(MergeAll(patches), patch)
  {
    assert (patches + [patch])[..|patches|] == patches;
  }

  lemma EmptyPatchWritesNothing()
    ensures Effect(EMPTY_PATCH) == map[]
  {
    forall x: Cell ensures x !in Effect(EMPTY_PATCH) {
      EffectAt(EMPTY_PATCH, x);
    }
  }

  lemma MergeFirst(p: Patch)
    ensures Merge(EMPTY_PATCH, p) == p
  {
    assert map[] + p.fields == p.fields;
  }

  /** Everything in `m` is in `n`, with the same value. */
  ghost predicate PartOf(m: Card, n: Card) {
    forall x :: x in m ==> x in n && n[x] == m[x]
  }

  lemma PartStep(total: Card, merged: Patch, patch: Patch)
    requires PartOf(Effect(merged), total)
    ensures PartOf(Effect(Merge(merged, patch)), total + Effect(patch))
  {
    hide Effect;
    MergeEffect(merged, patch);
  }

  lemma NothingIsPart(n: Card)
    ensures PartOf(map[], n)
  {
  }

  /** One merged patch writes what replaying all would leave, but for cells it no longer mentions. */
  lemma {:induction false} MergeAllSummarises(patches: seq<Patch>)
    ensures PartOf(Effect(MergeAll(patches)), ReplayPatches(BLANK_CARD, patches))
    ensures forall a :: a in patches ==> Spans(MergeAll(patches), a)
  {
    hide Effect;
    hide PartOf;
    if patches == [] {
      EmptyPatchWritesNothing();
      NothingIsPart(ReplayPatches(BLANK_CARD, []));
    } else {
      var n := |patches| - 1;
      MergeAllSummarises(patches[..n]);
      PartStep(ReplayPatches(BLANK_CARD, patches[..n]), MergeAll(patches[..n]), patches[n]);
      assert patches == patches[..n] + [patches[n]];
      forall a | a in patches ensures Spans(MergeAll(patches), a) {
        assert a in patches[..n] || a == patches[n];
      }
    }
  }

  lemma ReplayNone(card: Card)
    ensures ReplayPatches(card, []) == card
  {
  }

  lemma ReplaySnoc(card: Card, patches: seq<Patch>, patch: Patch)
    ensures ReplayPatches(card, patches + [patch]) == ReplayPatches(card, patches) + Effect(patch)
  {
    assert (patches + [patch])[..|patches|] == patches;
  }

  lemma UnderCapPrefix(log: seq<Request>)
    requires UnderCap(log) && log != []
    ensures UnderCap(log[..|log| - 1])
    ensures var n := |log| - 1;
            FreshFor(Build(log[..n]), log[n].meta)
            && |Extend(Build(log[..n]), log[n].write, log[n].meta)| <= MAX_WRITE_QUEUE
  {
    hide Build;
    hide WriteQueueCore.Extend;
    var n := |log| - 1;
    forall i | 0 <= i < n
      ensures FreshFor(Build(log[..n][..i]), log[..n][i].meta)
              && |Extend(Build(log[..n][..i]), log[..n][i].write, log[..n][i].meta)| <= MAX_WRITE_QUEUE
    {
      assert log[..n][..i] == log[..i];
    }
  }

  lemma {:induction false} BuildWellFormed(log: seq<Request>)
    requires UnderCap(log)
    ensures WellFormed(Build(log))
    ensures log != [] ==>
              var n := |log| - 1;
              Build(log) == Extend(Build(log[..n]), log[n].write, log[n].meta)
  {
    hide WriteQueueCore.Extend;
    if log != [] {
      UnderCapPrefix(log);
      BuildWellFormed(log[..|log| - 1]);
      AppendKeepsWellFormed(Build(log[..|log| - 1]), log[|log| - 1].write, log[|log| - 1].meta);
    }
  }

  /** What the queue holds for a booking is all its logged patches merged into one. */
  lemma {:induction false} PendingIsMergeAll(log: seq<Request>, b: string)
    requires UnderCap(log)
    ensures var patches := PatchesOf(log, b);
            PendingPatch(Build(log), b) == if patches == [] then None else Some(MergeAll(patches))
  {
    hide WriteQueueCore.Extend;
    hide WriteQueueCore.PendingPatch;
    if log == [] {
      PendingPatchNone(Build(log), b);
    } else {
      var n := |log| - 1;
      UnderCapPrefix(log);
      BuildWellFormed(log);
      BuildWellFormed(log[..n]);
      PendingIsMergeAll(log[..n], b);
      ExtendPatch(Build(log[..n]), log[n].write, log[n].meta, b);
      MergedOnto(PatchesOf(log[..n], b), log[n].write, b);
    }
  }

  lemma MergedOnto(patches: seq<Patch>, w: NewWrite, b: string)
    ensures w.payload.JobCardPatch? ==>
              var pending := if patches == [] then None else Some(MergeAll(patches));
              MergeAll(patches + [w.payload.patch]) == AfterPatch(pending, w.payload.patch)
    ensures patches + [] == patches
  {
    if w.payload.JobCardPatch? {
      MergeAllSnoc(patches, w.payload.patch);
      MergeFirst(w.payload.patch);
    }
  }

  lemma PendingEffectIs(log: seq<Request>, b: string)
    requires UnderCap(log)
    ensures PendingEffect(Build(log), b) == Effect(MergeAll(PatchesOf(log, b)))
  {
    hide Effect;
    hide WriteQueueCore.PendingPatch;
    PendingIsMergeAll(log, b);
    EmptyPatchWritesNothing();
  }

  lemma {:induction false} ReplayCard(site: Site, b: string, log: seq<Request>)
    ensures Replay(site, b, Writes(log)).card == ReplayPatches(site.card, PatchesOf(log, b))
  {
    if log != [] {
      var n := |log| - 1;
      ReplayCard(site, b, log[..n]);
      assert Writes(log)[..n] == Writes(log[..n]);
      var ps, w := PatchesOf(log[..n], b), log[n].write;
      assert Writes(log)[n] == w;
      if w.payload.JobCardPatch? && w.bookingId == b {
        ReplaySnoc(site.card, ps, w.payload.patch);
      } else {
        assert PatchesOf(log, b) == ps;
      }
    }
  }

  lemma {:induction false} ReplayIsOverride(card: Card, patches: seq<Patch>)
    ensures ReplayPatches(card, patches) == card + ReplayPatches(BLANK_CARD, patches)
  {
    hide Effect;
    if patches != [] {
      var n := |patches| - 1;
      ReplayIsOverride(card, patches[..n]);
      var total, e := ReplayPatches(BLANK_CARD, patches[..n]), Effect(patches[n]);
      assert card + total + e == card + (total + e);
    }
  }

  lemma {:induction false} ReplayKeys(patches: seq<Patch>)
    ensures forall a :: a in patches ==> Effect(a).Keys <= ReplayPatches(BLANK_CARD, patches).Keys
    ensures forall x :: x in ReplayPatches(BLANK_CARD, patches) ==> exists a :: a in patches && x in Effect(a)
  {
    if patches != [] {
      var n := |patches| - 1;
      ReplayKeys(patches[..n]);
      assert patches == patches[..n] + [patches[n]];
    }
  }

  lemma {:induction false} BuildPhotosAndSignature(site: Site, b: string, log: seq<Request>)
    requires UnderCap(log)
    ensures var queue := Build(log);
            var replayed := Replay(site, b, Writes(log));
            && site.photos + PendingPhotos(queue, b) == replayed.photos
            && replayed.signature ==
               (if PendingSignature(queue, b).Some? then PendingSignature(queue, b) else site.signature)
  {
    hide WriteQueueCore.Extend;
    hide JobCards.Effect;
    if log == [] {
      PendingSignatureNone(Build(log), b);
    } else {
      var n := |log| - 1;
      UnderCapPrefix(log);
      BuildWellFormed(log);
      BuildWellFormed(log[..n]);
      BuildPhotosAndSignature(site, b, log[..n]);
      ExtendPhotos(Build(log[..n]), log[n].write, log[n].meta, b);
      ExtendSignature(Build(log[..n]), log[n].write, log[n].meta, b);
      assert Writes(log)[..n] == Writes(log[..n]);
    }
  }

  /** Photos and signatures need no condition: they survive coalescing in order, whatever the patches were. */
  lemma DrainedPhotosAndSignature(site: Site, b: string, log: seq<Request>)
    requires UnderCap(log)
    ensures Drain(site, b, Build(log)).photos == Replay(site, b, Writes(log)).photos
    ensures Drain(site, b, Build(log)).signature == Replay(site, b, Writes(log)).signature
  {
    BuildWellFormed(log);
    DrainParts(site, b, Build(log));
    BuildPhotosAndSignature(site, b, log);
  }

  /**
   * Draining the coalesced queue leaves every booking as replaying the whole
   * uncoalesced log would, whatever the server held before, exactly when the
   * logged patches merged into one still carry every reading and every answer
   * that any of them had and a later one displaced.
   */
  lemma CoalescingPreservesMeaning(log: seq<Request>, b: string)
    requires UnderCap(log)
    ensures (forall site :: Drain(site, b, Build(log)) == Replay(site, b, Writes(log)))
            <==> AllCovered(PatchesOf(log, b))
  {
    hide JobCards.Effect;
    hide AllCovered;
    hide Drain;
    hide Replay;
    hide PendingEffect;
    MergeAllIsReplayIff(PatchesOf(log, b));
    PendingEffectIs(log, b);
    MeaningIsEffect(log, b);
  }

  lemma MeaningIsEffect(log: seq<Request>, b: string)
    requires UnderCap(log)
    ensures (forall site :: Drain(site, b, Build(log)) == Replay(site, b, Writes(log)))
            <==> PendingEffect(Build(log), b) == ReplayPatches(BLANK_CARD, PatchesOf(log, b))
  {
    if PendingEffect(Build(log), b) == ReplayPatches(BLANK_CARD, PatchesOf(log, b)) {
      forall site ensures Drain(site, b, Build(log)) == Replay(site, b, Writes(log)) {
        DrainedVersusReplayed(site, b, log);
      }
    } else {
      var blank := Site(BLANK_CARD, [], None);
      DrainedVersusReplayed(blank, b, log);
      BlankOverride(PendingEffect(Build(log), b));
      BlankOverride(ReplayPatches(BLANK_CARD, PatchesOf(log, b)));
    }
  }

  lemma BlankOverride(m: map<Cell, Json>)
    ensures BLANK_CARD + m == m
  {
  }

  lemma DrainedVersusReplayed(site: Site, b: string, log: seq<Request>)
    requires UnderCap(log)
    ensures Drain(site, b, Build(log)) == Replay(site, b, Writes(log))
            <==> site.card + PendingEffect(Build(log), b)
                 == site.card + ReplayPatches(BLANK_CARD, PatchesOf(log, b))
  {
    DrainedPhotosAndSignature(site, b, log);
    BuildWellFormed(log);
    DrainParts(site, b, Build(log));
    ReplayCard(site, b, log);
    ReplayIsOverride(site.card, PatchesOf(log, b));
  }

  /** One merged patch leaves a blank card as the patches one by one would, exactly when all of them are covered. */
  lemma MergeAllIsReplayIff(patches: seq<Patch>)
    ensures Effect(MergeAll(patches)) == ReplayPatches(BLANK_CARD, patches) <==> AllCovered(patches)
  {
    hide Effect;
    hide ReplayPatches;
    hide Covers;
    hide Spans;
    hide MergeAll;
    hide PartOf;
    var effect, total := Effect(MergeAll(patches)), ReplayPatches(BLANK_CARD, patches);
    MergeAllSummarises(patches);
    SubmapEqual(effect, total);
    if total.Keys <= effect.Keys {
      NoneUncovered(MergeAll(patches), patches);
    } else {
      var a := SomeUncovered(MergeAll(patches), patches);
    }
  }

  lemma SubmapEqual(m: Card, n: Card)
    requires PartOf(m, n)
    ensures m == n <==> n.Keys <= m.Keys
  {
  }

  lemma NoneUncovered(p: Patch, patches: seq<Patch>)
    requires forall a :: a in patches ==> Spans(p, a)
    requires ReplayPatches(BLANK_CARD, patches).Keys <= Effect(p).Keys
    ensures forall a :: a in patches ==> Covers(a, p)
  {
    hide Effect;
    hide ReplayPatches;
    hide Covers;
    ReplayKeys(patches);
    forall a | a in patches ensures Covers(a, p) {
      SpannedKeys(p, a);
    }
  }

  lemma SomeUncovered(p: Patch, patches: seq<Patch>) returns (a: Patch)
    requires forall a :: a in patches ==> Spans(p, a)
    requires !(ReplayPatches(BLANK_CARD, patches).Keys <= Effect(p).Keys)
    ensures a in patches && !Covers(a, p)
  {
    hide Effect;
    hide ReplayPatches;
    hide Covers;
    ReplayKeys(patches);
    var x :| x in ReplayPatches(BLANK_CARD, patches) && x !in Effect(p);
    a :| a in patches && x in Effect(a);
    SpannedKeys(p, a);
  }

  // ---------------------------------------------------------------- the cap

  function Added(r: Request): QueuedWrite {
    QueuedWrite(r.meta.id, r.write.bookingId, r.write.payload, r.meta.now, 0)
  }

  function Entries(log: seq<Request>): seq<QueuedWrite> {
    seq(|log|, i requires 0 <= i < |log| => Added(log[i]))
  }

  ghost predicate DistinctRequests(log: seq<Request>) {
    forall i, j :: 0 <= i < j < |log| ==> log[i].meta.id != log[j].meta.id
  }

  /** `b`, enqueued `distance` writes after `a`, finds `a` still queued and is merged into it or replaces it. */
  predicate Meets(a: NewWrite, b: NewWrite, distance: nat) {
    && a.bookingId == b.bookingId
    && (|| (a.payload.JobCardPatch? && b.payload.JobCardPatch? && distance <= MAX_WRITE_QUEUE)
        || (a.payload.SignatureUpload? && b.payload.SignatureUpload? && distance < MAX_WRITE_QUEUE))
  }

  ghost predicate MeetsNone(log: seq<Request>, j: nat)
    requires j < |log|
  {
    forall i :: 0 <= i < j ==> !Meets(log[i].write, log[j].write, j - i)
  }

  ghost predicate NoneMeet(log: seq<Request>) {
    forall j :: 0 <= j < |log| ==> MeetsNone(log, j)
  }

  /** The queue holds exactly the newest 200 writes, in order. */
  predicate Slid(log: seq<Request>) {
    Build(log) == if |log| > 200 then Entries(log)[|log| - 200..] else Entries(log)
  }

  lemma SlidIffTrimmed(log: seq<Request>)
    ensures Slid(log) <==> Build(log) == TrimWrites(Entries(log))
  {
  }

  ghost predicate SlidesAlways(log: seq<Request>) {
    forall n :: 0 <= n <= |log| ==> Slid(log[..n])
  }

  lemma {:induction false} FilterAll<T(!new)>(s: seq<T>, p: T -> bool)
    requires forall x :: x in s ==> p(x)
    ensures Filter(s, p) == s
  {
    if s != [] {
      FilterAll(s[..|s| - 1], p);
      assert s == s[..|s| - 1] + [s[|s| - 1]];
    }
  }

  lemma {:induction false} FilterShorter<T(!new)>(s: seq<T>, p: T -> bool, k: nat)
    requires k < |s| && !p(s[k])
    ensures |Filter(s, p)| < |s|
  {
    if k < |s| - 1 {
      FilterShorter(s[..|s| - 1], p, k);
    }
  }

  lemma {:induction false} FilterHead<T(!new)>(s: seq<T>, p: T -> bool)
    requires s != [] && p(s[0])
    ensures Filter(s, p) != [] && Filter(s, p)[0] == s[0]
  {
    if |s| > 1 {
      FilterHead(s[..|s| - 1], p);
    }
  }

  lemma TrimSnoc(list: seq<QueuedWrite>, w: QueuedWrite)
    ensures TrimWrites(TrimWrites(list) + [w]) == TrimWrites(list + [w])
  {
  }

  /** The new write is merged with or replaces the entry at `k`, one that sliding would not drop anyway. */
  predicate MeetsEntry(queue: seq<QueuedWrite>, k: nat, write: NewWrite)
    requires k < |queue|
  {
    || (write.payload.JobCardPatch? && IsPatchFor(queue[k], write.bookingId))
    || (write.payload.SignatureUpload? && IsSignatureFor(queue[k], write.bookingId)
        && (|queue| < MAX_WRITE_QUEUE || k > 0))
  }

  ghost predicate Unmet(queue: seq<QueuedWrite>, write: NewWrite) {
    forall k :: 0 <= k < |queue| ==> !MeetsEntry(queue, k, write)
  }

  /** Where the entries of a sliding queue come from. */
  lemma SlidAt(log: seq<Request>, k: nat)
    requires k < |TrimWrites(Entries(log))|
    ensures var d := |log| - |TrimWrites(Entries(log))|;
            0 <= d && TrimWrites(Entries(log))[k] == Added(log[d + k])
  {
  }

  /** The list an entry is appended to: without the signature it replaces. */
  function Base(queue: seq<QueuedWrite>, write: NewWrite): seq<QueuedWrite> {
    if write.payload.SignatureUpload? then WithoutSignature(queue, write.bookingId) else queue
  }

  lemma AppendsToBase(queue: seq<QueuedWrite>, write: NewWrite, meta: Meta)
    requires !Coalesces(queue, write)
    ensures Extend(queue, write, meta) == Base(queue, write) + [Added(Request(write, meta))]
    ensures AppendWrite(queue, write, meta) == TrimWrites(Base(queue, write) + [Added(Request(write, meta))])
  {
  }

  /** A patch merged into a queued one leaves the ids in their places, so the queue does not slide. */
  lemma MergedDoesNotSlide(queue: seq<QueuedWrite>, r: Request)
    requires Coalesces(queue, r.write) && queue[|queue| - 1].id != r.meta.id
    ensures AppendWrite(queue, r.write, r.meta) != TrimWrites(queue + [Added(r)])
  {
    var after, slid := AppendWrite(queue, r.write, r.meta), TrimWrites(queue + [Added(r)]);
    assert after[|after| - 1].id == queue[|queue| - 1].id;
    assert slid[|slid| - 1] == Added(r);
  }

  lemma CoalescesIffMet(queue: seq<QueuedWrite>, write: NewWrite)
    requires write.payload.JobCardPatch?
    ensures Coalesces(queue, write) <==> !Unmet(queue, write)
  {
    var idx := PatchIndex(queue, write.bookingId);
    if idx < |queue| {
      assert MeetsEntry(queue, idx, write);
    } else {
      PatchIndexNone(queue, write.bookingId);
    }
  }

  lemma PatchIndexNone(queue: seq<QueuedWrite>, b: string)
    requires PatchIndex(queue, b) == |queue|
    ensures forall k :: 0 <= k < |queue| ==> !IsPatchFor(queue[k], b)
  {
  }

  lemma SlidPatch(log: seq<Request>, r: Request)
    requires r.write.payload.JobCardPatch? && log != [] && log[|log| - 1].meta.id != r.meta.id
    ensures var queue := TrimWrites(Entries(log));
            AppendWrite(queue, r.write, r.meta) == TrimWrites(queue + [Added(r)]) <==> Unmet(queue, r.write)
  {
    hide AppendWrite;
    hide Unmet;
    hide WriteQueueCore.Extend;
    hide PatchIndex;
    var queue := TrimWrites(Entries(log));
    CoalescesIffMet(queue, r.write);
    if Coalesces(queue, r.write) {
      SlidAt(log, |queue| - 1);
      MergedDoesNotSlide(queue, r);
    } else {
      AppendsToBase(queue, r.write, r.meta);
    }
  }

  lemma TrimFull(queue: seq<QueuedWrite>, w: QueuedWrite)
    requires |queue| == MAX_WRITE_QUEUE
    ensures TrimWrites(queue + [w]) == queue[1..] + [w] == TrimWrites(queue[1..] + [w])
  {
  }

  /** A signature replacing one that is not the oldest of a full queue leaves another queue than sliding would. */
  lemma ReplacedSignature(queue: seq<QueuedWrite>, r: Request, k: nat)
    requires r.write.payload.SignatureUpload? && |queue| <= MAX_WRITE_QUEUE
    requires k < |queue| && IsSignatureFor(queue[k], r.write.bookingId)
    requires |queue| < MAX_WRITE_QUEUE
             || (k > 0 && queue[0].id != queue[1].id && !IsSignatureFor(queue[0], r.write.bookingId))
    ensures AppendWrite(queue, r.write, r.meta) != TrimWrites(queue + [Added(r)])
  {
    var p := (w: QueuedWrite) => !IsSignatureFor(w, r.write.bookingId);
    FilterShorter(queue, p, k);
    if |queue| == MAX_WRITE_QUEUE {
      FilterHead(queue, p);
      assert TrimWrites(queue + [Added(r)])[0] == queue[1];
    }
  }

  lemma KeptSignatures(queue: seq<QueuedWrite>, r: Request)
    requires r.write.payload.SignatureUpload?
    requires forall k :: 0 <= k < |queue| ==> !IsSignatureFor(queue[k], r.write.bookingId)
    ensures AppendWrite(queue, r.write, r.meta) == TrimWrites(queue + [Added(r)])
  {
    FilterAll(queue, (w: QueuedWrite) => !IsSignatureFor(w, r.write.bookingId));
  }

  lemma FilterRest<T(!new)>(s: seq<T>, p: T -> bool)
    requires s != [] && !p(s[0]) && forall x :: x in s[1..] ==> p(x)
    ensures Filter(s, p) == s[1..]
  {
    assert s == [s[0]] + s[1..];
    FilterConcat([s[0]], s[1..], p);
    FilterAll(s[1..], p);
    FilterShorter([s[0]], p, 0);
  }

  lemma OldestSignatureReplaced(queue: seq<QueuedWrite>, r: Request)
    requires r.write.payload.SignatureUpload? && |queue| == MAX_WRITE_QUEUE
    requires IsSignatureFor(queue[0], r.write.bookingId)
    requires forall k :: 0 < k < |queue| ==> !IsSignatureFor(queue[k], r.write.bookingId)
    ensures AppendWrite(queue, r.write, r.meta) == TrimWrites(queue + [Added(r)])
  {
    hide AppendWrite;
    hide WriteQueueCore.Extend;
    hide WriteQueueCore.TrimWrites;
    AppendsToBase(queue, r.write, r.meta);
    FilterRest(queue, (w: QueuedWrite) => !IsSignatureFor(w, r.write.bookingId));
    TrimFull(queue, Added(r));
  }

  predicate OldestIsSignature(queue: seq<QueuedWrite>, r: Request) {
    queue != [] && IsSignatureFor(queue[0], r.write.bookingId)
  }

  lemma SlidSignature(queue: seq<QueuedWrite>, r: Request)
    requires r.write.payload.SignatureUpload? && |queue| <= MAX_WRITE_QUEUE
    requires |queue| > 1 ==> queue[0].id != queue[1].id
    requires OldestIsSignature(queue, r) ==> forall k :: 0 < k < |queue| ==> !IsSignatureFor(queue[k], r.write.bookingId)
    ensures AppendWrite(queue, r.write, r.meta) == TrimWrites(queue + [Added(r)]) <==> Unmet(queue, r.write)
  {
    hide AppendWrite;
    hide WriteQueueCore.TrimWrites;
    if k :| 0 <= k < |queue| && MeetsEntry(queue, k, r.write) {
      ReplacedSignature(queue, r, k);
    } else if OldestIsSignature(queue, r) {
      assert !MeetsEntry(queue, 0, r.write);
      OldestSignatureReplaced(queue, r);
    } else {
      forall k | 0 <= k < |queue| ensures !IsSignatureFor(queue[k], r.write.bookingId) {
        assert !MeetsEntry(queue, k, r.write);
      }
      KeptSignatures(queue, r);
    }
  }

  lemma SlidAppend(log: seq<Request>, r: Request)
    requires log != [] ==> log[|log| - 1].meta.id != r.meta.id
    requires var queue := TrimWrites(Entries(log));
             && (|queue| > 1 ==> queue[0].id != queue[1].id)
             && (OldestIsSignature(queue, r)
                 ==> forall k :: 0 < k < |queue| ==> !IsSignatureFor(queue[k], r.write.bookingId))
    ensures var queue := TrimWrites(Entries(log));
            AppendWrite(queue, r.write, r.meta) == TrimWrites(queue + [Added(r)]) <==> Unmet(queue, r.write)
  {
    match r.write.payload
    case PhotoUpload(_, _, _, _) =>
    case JobCardPatch(_) =>
      if log != [] {
        SlidPatch(log, r);
      }
    case SignatureUpload(_) =>
      SlidSignature(TrimWrites(Entries(log)), r);
  }

  /** One more write slides the queue exactly when it meets none of the writes still held. */
  lemma SlidesOnceIff(log: seq<Request>)
    requires log != [] && DistinctRequests(log) && NoneMeet(log[..|log| - 1]) && Slid(log[..|log| - 1])
    ensures Slid(log) <==> MeetsNone(log, |log| - 1)
  {
    hide AppendWrite;
    hide Meets;
    hide NoneMeet;
    hide MeetsNone;
    hide Unmet;
    hide Slid;
    hide WriteQueueCore.TrimWrites;
    var n := |log| - 1;
    var init, r := log[..n], log[n];
    var queue := TrimWrites(Entries(init));
    SlidIffTrimmed(init);
    SlidIffTrimmed(log);
    assert Entries(log) == Entries(init) + [Added(r)];
    TrimSnoc(Entries(init), Added(r));
    SlidOldest(log, queue);
    SlidAppend(init, r);
    MeetsAt(log, queue);
  }

  lemma MeetsEntryIff(log: seq<Request>, queue: seq<QueuedWrite>, i: nat)
    requires i < |log| - 1 && queue == TrimWrites(Entries(log[..|log| - 1]))
    ensures var n := |log| - 1;
            Meets(log[i].write, log[n].write, n - i)
            <==> n - |queue| <= i && MeetsEntry(queue, i - (n - |queue|), log[n].write)
  {
    var n := |log| - 1;
    var d := n - |queue|;
    if d <= i {
      SlidAt(log[..n], i - d);
    }
  }

  /** Which writes the newest one meets, read off the sliding queue. */
  lemma MeetsAt(log: seq<Request>, queue: seq<QueuedWrite>)
    requires log != [] && queue == TrimWrites(Entries(log[..|log| - 1]))
    ensures MeetsNone(log, |log| - 1) <==> Unmet(queue, log[|log| - 1].write)
  {
    hide Meets;
    hide MeetsEntry;
    hide WriteQueueCore.TrimWrites;
    var n := |log| - 1;
    TrimLength(Entries(log[..n]));
    var d := n - |queue|;
    forall i | 0 <= i < n
      ensures Meets(log[i].write, log[n].write, n - i)
              <==> d <= i && MeetsEntry(queue, i - d, log[n].write)
    {
      MeetsEntryIff(log, queue, i);
    }
    forall k | 0 <= k < |queue| ensures MeetsEntry(queue, k, log[n].write) <==> Meets(log[d + k].write, log[n].write, n - (d + k)) {
      assert d + k - d == k;
    }
  }

  lemma TrimLength(list: seq<QueuedWrite>)
    ensures |TrimWrites(list)| <= |list|
  {
  }

  /** The writes of a sliding queue have not met each other. */
  lemma SlidOldest(log: seq<Request>, queue: seq<QueuedWrite>)
    requires log != [] && DistinctRequests(log) && NoneMeet(log[..|log| - 1])
    requires queue == TrimWrites(Entries(log[..|log| - 1]))
    ensures forall i, j :: 0 <= i < j < |queue| ==> queue[i].id != queue[j].id
    ensures forall k, b :: 0 < k < |queue| && IsSignatureFor(queue[0], b) ==> !IsSignatureFor(queue[k], b)
  {
    var init := log[..|log| - 1];
    var d := |init| - |queue|;
    assert forall k :: 0 <= k < |queue| ==> queue[k] == Added(init[d + k]);
    forall k, b | 0 < k < |queue| && IsSignatureFor(queue[0], b) ensures !IsSignatureFor(queue[k], b) {
      assert MeetsNone(init, d + k);
      assert !Meets(init[d].write, init[d + k].write, k);
    }
  }

  /**
   * The cap is a sliding window over the log, the newest 200 writes held in
   * order at every moment, exactly when no patch meets a queued patch and no
   * signature a queued signature of its booking.
   */
  lemma {:induction false} NewestWritesAreKept(log: seq<Request>)
    requires DistinctRequests(log)
    ensures SlidesAlways(log) <==> NoneMeet(log)
  {
    hide Build;
    hide WriteQueueCore.TrimWrites;
    hide Meets;
    if log == [] {
      assert log[..0] == log && Entries(log) == [];
      NothingBuilt();
    } else {
      var n := |log| - 1;
      var init := log[..n];
      NewestWritesAreKept(init);
      SlidesPrefix(log);
      NoneMeetPrefix(log);
      if SlidesAlways(init) {
        assert init[..n] == init;
        SlidesOnceIff(log);
      }
    }
  }

  lemma NothingBuilt()
    ensures Build([]) == []
  {
  }

  lemma SlidesPrefix(log: seq<Request>)
    requires log != []
    ensures SlidesAlways(log) <==> SlidesAlways(log[..|log| - 1]) && Slid(log)
  {
    hide Slid;
    var n := |log| - 1;
    assert log[..n + 1] == log;
    forall m | 0 <= m <= n ensures log[..n][..m] == log[..m] {
    }
    if SlidesAlways(log[..n]) && Slid(log) {
      forall m | 0 <= m <= |log| ensures Slid(log[..m]) {
        if m <= n {
          assert Slid(log[..n][..m]);
        }
      }
    }
  }

  lemma NoneMeetPrefix(log: seq<Request>)
    requires log != []
    ensures NoneMeet(log) <==> NoneMeet(log[..|log| - 1]) && MeetsNone(log, |log| - 1)
  {
    hide Meets;
    var init := log[..|log| - 1];
    forall j | 0 <= j < |init| ensures MeetsNone(log, j) <==> MeetsNone(init, j) {
    }
  }

  lemma CoalescedIds(queue: seq<QueuedWrite>, write: NewWrite, meta: Meta, i: nat)
    requires Coalesces(queue, write) && i < |queue|
    ensures AppendWrite(queue, write, meta)[i].id == queue[i].id
    ensures |AppendWrite(queue, write, meta)| == |queue| == |Extend(queue, write, meta)|
  {
  }

  /** Whether an entry of `base` is still there after one appended entry and the cap. */
  lemma TrimmedIff(base: seq<QueuedWrite>, w: QueuedWrite, id: string)
    requires forall i, j :: 0 <= i < j < |base| ==> base[i].id != base[j].id
    requires w.id != id && |base| <= MAX_WRITE_QUEUE
    ensures (forall v :: v in TrimWrites(base + [w]) ==> v.id != id)
            <==> (forall v :: v in base ==> v.id != id) || (|base| == MAX_WRITE_QUEUE && base[0].id == id)
  {
    var all := base + [w];
    var t := TrimWrites(all);
    var d := |all| - |t|;
    assert forall k :: 0 <= k < |t| ==> t[k] == all[d + k];
    forall i | d <= i < |base| ensures base[i] in t {
      assert t[i - d] == base[i];
    }
    if |base| == MAX_WRITE_QUEUE && base[0].id == id {
      forall v | v in t ensures v.id != id {
        var k :| 0 <= k < |t| && t[k] == v;
      }
    }
  }

  lemma BaseIs(queue: seq<QueuedWrite>, write: NewWrite, i: nat)
    requires Ordered(queue) && i < |queue|
    ensures Ordered(Base(queue, write)) && |Base(queue, write)| <= |queue|
    ensures |Base(queue, write)| == |queue| ==> Base(queue, write) == queue
    ensures (forall v :: v in Base(queue, write) ==> v.id != queue[i].id)
            <==> write.payload.SignatureUpload? && IsSignatureFor(queue[i], write.bookingId)
  {
    if write.payload.SignatureUpload? {
      var p := (w: QueuedWrite) => !IsSignatureFor(w, write.bookingId);
      OrderedFilter(queue, p);
      if k :| 0 <= k < |queue| && !p(queue[k]) {
        FilterShorter(queue, p, k);
      } else {
        FilterAll(queue, p);
      }
    }
    assert queue[i] in queue;
    forall v | v in queue && v.id == queue[i].id ensures v == queue[i] {
      SameId(queue, v, queue[i]);
    }
  }

  lemma RemovedByAppend(queue: seq<QueuedWrite>, write: NewWrite, meta: Meta, i: nat)
    requires WellFormed(queue) && FreshFor(queue, meta) && i < |queue| && !Coalesces(queue, write)
    ensures (forall w :: w in AppendWrite(queue, write, meta) ==> w.id != queue[i].id)
            <==> || (write.payload.SignatureUpload? && IsSignatureFor(queue[i], write.bookingId))
                 || (i == 0 && |Extend(queue, write, meta)| > MAX_WRITE_QUEUE)
  {
    hide Base;
    hide AppendWrite;
    hide WriteQueueCore.Extend;
    hide WriteQueueCore.TrimWrites;
    var base, added := Base(queue, write), Added(Request(write, meta));
    AppendsToBase(queue, write, meta);
    BaseIs(queue, write, i);
    forall x, y | 0 <= x < y < |base| ensures base[x].id != base[y].id {
      assert MayPrecede(base[x], base[y]);
    }
    assert queue[i] in queue;
    TrimmedIff(base, added, queue[i].id);
    if i > 0 {
      assert MayPrecede(queue[0], queue[i]);
    }
  }

  /**
   * What one append removes: the signature it replaces, or the oldest entry
   * when the list would grow past the cap, and nothing else.
   */
  lemma RemovedIff(queue: seq<QueuedWrite>, write: NewWrite, meta: Meta, i: nat)
    requires WellFormed(queue) && FreshFor(queue, meta) && i < |queue|
    ensures (forall w :: w in AppendWrite(queue, write, meta) ==> w.id != queue[i].id)
            <==> || (write.payload.SignatureUpload? && IsSignatureFor(queue[i], write.bookingId))
                 || (i == 0 && |Extend(queue, write, meta)| > MAX_WRITE_QUEUE)
  {
    hide AppendWrite;
    hide WriteQueueCore.Extend;
    if Coalesces(queue, write) {
      CoalescedIds(queue, write, meta, i);
      assert AppendWrite(queue, write, meta)[i] in AppendWrite(queue, write, meta);
    } else {
      RemovedByAppend(queue, write, meta, i);
    }
  }

  lemma BuildSnoc(log: seq<Request>, r: Request)
    ensures Build(log + [r]) == AppendWrite(Build(log), r.write, r.meta)
  {
    assert (log + [r])[..|log|] == log;
  }

  lemma EditAtTheFront(queue: seq<QueuedWrite>, edit: Request, photo: Request)
    requires |queue| == MAX_WRITE_QUEUE && IsPatchFor(queue[0], edit.write.bookingId)
    requires edit.write.payload.JobCardPatch? && photo.write.payload.PhotoUpload?
    ensures AppendWrite(AppendWrite(queue, edit.write, edit.meta), photo.write, photo.meta)
         == queue[1..] + [Added(photo)]
  {
    var edited := AppendWrite(queue, edit.write, edit.meta);
    assert PatchIndex(queue, edit.write.bookingId) == 0;
    assert edited[1..] == queue[1..];
    assert TrimWrites(edited + [Added(photo)]) == edited[1..] + [Added(photo)];
  }

  lemma NoOtherPatchHeld(log: seq<Request>, photo: Request, b: string)
    requires |log| == MAX_WRITE_QUEUE && NoneMeet(log) && photo.write.payload.PhotoUpload?
    requires log[0].write.payload.JobCardPatch? && log[0].write.bookingId == b
    ensures PendingPatch(Entries(log)[1..] + [Added(photo)], b) == None
  {
    var queue := Entries(log)[1..] + [Added(photo)];
    forall w | w in queue ensures !IsPatchFor(w, b) {
      var k :| 0 <= k < |queue| && queue[k] == w;
      if k < |log| - 1 {
        assert w == Added(log[k + 1]);
        assert MeetsNone(log, k + 1);
        assert !Meets(log[0].write, log[k + 1].write, k + 1);
      }
    }
    PendingPatchNone(queue, b);
  }

  /**
   * A merged edit keeps the place of the patch it joins. With the cap reached
   * and that patch the oldest entry, the newest edit is the next write cut,
   * before 199 older ones, and nothing of the booking's card stays queued.
   */
  lemma NewestEditIsCutFirst(log: seq<Request>, edit: Request, photo: Request, b: string)
    requires |log| == MAX_WRITE_QUEUE && DistinctRequests(log) && NoneMeet(log)
    requires log[0].write.payload.JobCardPatch? && log[0].write.bookingId == b
    requires edit.write.payload.JobCardPatch? && edit.write.bookingId == b && photo.write.payload.PhotoUpload?
    ensures Build(log + [edit] + [photo]) == Entries(log)[1..] + [Added(photo)]
    ensures PendingPatch(Build(log + [edit] + [photo]), b) == None
  {
    hide AppendWrite;
    NewestWritesAreKept(log);
    assert log[..|log|] == log && Slid(log);
    assert Entries(log)[0] == Added(log[0]);
    BuildSnoc(log, edit);
    BuildSnoc(log + [edit], photo);
    EditAtTheFront(Entries(log), edit, photo);
    NoOtherPatchHeld(log, photo, b);
  }
}
