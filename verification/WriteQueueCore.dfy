/**
 * The pure core of the technician app's offline write queue: appending with
 * coalescing, the size cap, the failure rule, and what a queue means for the
 * server once it is drained.
 */
module WriteQueueCore {
  import opened Basics
  import opened JobCards

  const MAX_WRITE_QUEUE := 200
  const MAX_WRITE_ATTEMPTS := 5

  datatype AttachmentKind = PreServicePhoto | PostServicePhoto | PartsPhoto | OtherPhoto

  /** What a write carries. An uploaded file is identified by its local address. */
  datatype Payload =
    | JobCardPatch(patch: Patch)
    | PhotoUpload(localUri: string, contentType: string, kind: AttachmentKind, caption: Option<string>)
    | SignatureUpload(signatureUri: string)

  datatype NewWrite = NewWrite(bookingId: string, payload: Payload)
  datatype Meta = Meta(id: string, now: int)
  datatype QueuedWrite = QueuedWrite(id: string, bookingId: string, payload: Payload, createdAt: int, attempts: nat)

  predicate IsPatchFor(w: QueuedWrite, bookingId: string) {
    w.payload.JobCardPatch? && w.bookingId == bookingId
  }

  predicate IsSignatureFor(w: QueuedWrite, bookingId: string) {
    w.payload.SignatureUpload? && w.bookingId == bookingId
  }

  function PatchIndex(queue: seq<QueuedWrite>, bookingId: string): nat {
    FirstIndex(queue, (w: QueuedWrite) => IsPatchFor(w, bookingId))
  }

  function TrimWrites(items: seq<QueuedWrite>): seq<QueuedWrite> {
    if |items| > MAX_WRITE_QUEUE then items[|items| - MAX_WRITE_QUEUE..] else items
  }

  function WithoutJobCardPatch(queue: seq<QueuedWrite>, bookingId: string): seq<QueuedWrite> {
    Filter(queue, (w: QueuedWrite) => !IsPatchFor(w, bookingId))
  }

  function WithoutSignature(queue: seq<QueuedWrite>, bookingId: string): seq<QueuedWrite> {
    Filter(queue, (w: QueuedWrite) => !IsSignatureFor(w, bookingId))
  }

  function Coalesced(prev: QueuedWrite, patch: Patch): QueuedWrite
    requires prev.payload.JobCardPatch?
  {
    prev.(payload := JobCardPatch(Merge(prev.payload.patch, patch)))
  }

  /** `appendWrite` before its cap. */
  function Extend(queue: seq<QueuedWrite>, write: NewWrite, meta: Meta): seq<QueuedWrite> {
    var added := QueuedWrite(meta.id, write.bookingId, write.payload, meta.now, 0);
    match write.payload
    case JobCardPatch(patch) =>
      var idx := PatchIndex(queue, write.bookingId);
      if idx < |queue| then queue[idx := Coalesced(queue[idx], patch)] else queue + [added]
    case SignatureUpload(_) => WithoutSignature(queue, write.bookingId) + [added]
    case PhotoUpload(_, _, _, _) => queue + [added]
  }

  predicate Coalesces(queue: seq<QueuedWrite>, write: NewWrite) {
    write.payload.JobCardPatch? && PatchIndex(queue, write.bookingId) < |queue|
  }

  /** The cap is applied to an appended entry; a coalesced one leaves the length alone. */
  function AppendWrite(queue: seq<QueuedWrite>, write: NewWrite, meta: Meta): seq<QueuedWrite> {
    if Coalesces(queue, write) then Extend(queue, write, meta) else TrimWrites(Extend(queue, write, meta))
  }

  datatype FailureOutcome = RetryLater | Failed

  function ClassifyFailure(status: Option<int>, attempts: nat): FailureOutcome {
    if status.None? then RetryLater
    else if status.value == 404 then RetryLater
    else if attempts + 1 >= MAX_WRITE_ATTEMPTS then Failed
    else RetryLater
  }

  // ---------------------------------------------------------------- well-formed queues

  predicate Conflict(a: QueuedWrite, b: QueuedWrite) {
    && a.bookingId == b.bookingId
    && (|| (a.payload.JobCardPatch? && b.payload.JobCardPatch?)
        || (a.payload.SignatureUpload? && b.payload.SignatureUpload?))
  }

  /** `a` may stand before `b`: other id, not two patches or two signatures of one booking, not younger. */
  predicate MayPrecede(a: QueuedWrite, b: QueuedWrite) {
    a.id != b.id && !Conflict(a, b) && a.createdAt <= b.createdAt
  }

  ghost predicate Ordered(queue: seq<QueuedWrite>) {
    forall i, j :: 0 <= i < j < |queue| ==> MayPrecede(queue[i], queue[j])
  }

  ghost predicate WellFormed(queue: seq<QueuedWrite>) {
    |queue| <= MAX_WRITE_QUEUE && Ordered(queue)
  }

  /** The parts of an entry that retries and coalescing leave alone. */
  predicate SameShape(a: QueuedWrite, b: QueuedWrite) {
    && a.id == b.id && a.bookingId == b.bookingId && a.createdAt == b.createdAt
    && (a.payload.JobCardPatch? <==> b.payload.JobCardPatch?)
    && (a.payload.SignatureUpload? <==> b.payload.SignatureUpload?)
  }

  lemma {:induction false} OrderedFilter(queue: seq<QueuedWrite>, p: QueuedWrite -> bool)
    requires Ordered(queue)
    ensures Ordered(Filter(queue, p))
  {
    if queue != [] {
      var init, last := queue[..|queue| - 1], queue[|queue| - 1];
      OrderedFilter(init, p);
      forall w | w in Filter(init, p) ensures MayPrecede(w, last) {
        var i :| 0 <= i < |init| && init[i] == w;
        assert MayPrecede(queue[i], queue[|queue| - 1]);
      }
    }
  }

  lemma SameId(list: seq<QueuedWrite>, a: QueuedWrite, b: QueuedWrite)
    requires Ordered(list) && a in list && b in list && a.id == b.id
    ensures a == b
  {
    var i :| 0 <= i < |list| && list[i] == a;
    var j :| 0 <= j < |list| && list[j] == b;
    forall x, y | 0 <= x < y < |list| ensures list[x].id != list[y].id {
      assert MayPrecede(list[x], list[y]);
    }
  }

  lemma OrderedUpdate(queue: seq<QueuedWrite>, i: nat, w: QueuedWrite)
    requires Ordered(queue) && i < |queue| && SameShape(queue[i], w)
    ensures Ordered(queue[i := w])
  {
    var q := queue[i := w];
    forall j, k | 0 <= j < k < |q| ensures MayPrecede(q[j], q[k]) {
      assert MayPrecede(queue[j], queue[k]);
    }
  }

  lemma OrderedAppend(queue: seq<QueuedWrite>, w: QueuedWrite)
    requires Ordered(queue)
    requires forall q :: q in queue ==> MayPrecede(q, w)
    ensures Ordered(queue + [w])
  {
  }

  lemma TrimKeepsOrdered(queue: seq<QueuedWrite>)
    requires Ordered(queue)
    ensures WellFormed(TrimWrites(queue))
    ensures |queue| <= MAX_WRITE_QUEUE ==> TrimWrites(queue) == queue
  {
    var t := TrimWrites(queue);
    var d := |queue| - |t|;
    forall i, j | 0 <= i < j < |t| ensures MayPrecede(t[i], t[j]) {
      assert t[i] == queue[d + i] && t[j] == queue[d + j];
    }
  }

  /** A fresh id and a clock that has not gone back: what `crypto.randomUUID` and `Date` supply. */
  ghost predicate FreshFor(queue: seq<QueuedWrite>, meta: Meta) {
    forall w :: w in queue ==> w.id != meta.id && w.createdAt <= meta.now
  }

  /** Every entry of the extended queue is the new one, an old one, or an old one with a larger patch. */
  lemma ExtendEntries(queue: seq<QueuedWrite>, write: NewWrite, meta: Meta)
    ensures forall w :: w in Extend(queue, write, meta) ==>
              || w == QueuedWrite(meta.id, write.bookingId, write.payload, meta.now, 0)
              || exists v :: v in queue && SameShape(v, w) && v.attempts == w.attempts
  {
    var added := QueuedWrite(meta.id, write.bookingId, write.payload, meta.now, 0);
    forall w | w in Extend(queue, write, meta) && w != added
      ensures exists v :: v in queue && SameShape(v, w) && v.attempts == w.attempts
    {
      if w in queue {
        assert SameShape(w, w);
      } else {
        var idx := PatchIndex(queue, write.bookingId);
        assert SameShape(queue[idx], w);
      }
    }
  }

  lemma ExtendKeepsOrdered(queue: seq<QueuedWrite>, write: NewWrite, meta: Meta)
    requires Ordered(queue) && FreshFor(queue, meta)
    ensures Ordered(Extend(queue, write, meta))
  {
    var added := QueuedWrite(meta.id, write.bookingId, write.payload, meta.now, 0);
    match write.payload
    case JobCardPatch(patch) =>
      var idx := PatchIndex(queue, write.bookingId);
      if idx < |queue| {
        OrderedUpdate(queue, idx, Coalesced(queue[idx], patch));
      } else {
        forall w | w in queue ensures MayPrecede(w, added) {
          var i :| 0 <= i < |queue| && queue[i] == w;
        }
        OrderedAppend(queue, added);
      }
    case SignatureUpload(_) =>
      OrderedFilter(queue, (w: QueuedWrite) => !IsSignatureFor(w, write.bookingId));
      OrderedAppend(WithoutSignature(queue, write.bookingId), added);
    case PhotoUpload(_, _, _, _) =>
      OrderedAppend(queue, added);
  }

  /** Distinct ids, one patch and one signature per booking, creation order and the cap survive every append. */
  lemma AppendKeepsWellFormed(queue: seq<QueuedWrite>, write: NewWrite, meta: Meta)
    requires WellFormed(queue) && FreshFor(queue, meta)
    ensures WellFormed(AppendWrite(queue, write, meta))
    ensures |Extend(queue, write, meta)| <= MAX_WRITE_QUEUE ==> AppendWrite(queue, write, meta) == Extend(queue, write, meta)
  {
    ExtendKeepsOrdered(queue, write, meta);
    TrimKeepsOrdered(Extend(queue, write, meta));
  }

  // ---------------------------------------------------------------- what a queue means

  /** What the server holds for one booking. */
  datatype Site = Site(card: Card, photos: seq<Payload>, signature: Option<string>)

  /** The server's answer to one successful send. */
  function Send(site: Site, payload: Payload): Site {
    match payload
    case JobCardPatch(patch) => site.(card := Apply(site.card, patch))
    case PhotoUpload(_, _, _, _) => site.(photos := site.photos + [payload])
    case SignatureUpload(uri) => site.(signature := Some(uri))
  }

  /** Sending the writes one by one, uncoalesced, as booking `b` sees it. */
  function Replay(site: Site, b: string, log: seq<NewWrite>): Site {
    if log == [] then site
    else
      var last := log[|log| - 1];
      var before := Replay(site, b, log[..|log| - 1]);
      if last.bookingId == b then Send(before, last.payload) else before
  }

  /** Draining a queue front to back, every send succeeding, as booking `b` sees it. */
  function Drain(site: Site, b: string, queue: seq<QueuedWrite>): Site {
    if queue == [] then site
    else
      var last := queue[|queue| - 1];
      var before := Drain(site, b, queue[..|queue| - 1]);
      if last.bookingId == b then Send(before, last.payload) else before
  }

  /** The patch waiting for booking `b`. */
  function PendingPatch(queue: seq<QueuedWrite>, b: string): (r: Option<Patch>) {
    var i := PatchIndex(queue, b);
    if i < |queue| then Some(queue[i].payload.patch) else None
  }

  function PendingSignature(queue: seq<QueuedWrite>, b: string): Option<string> {
    var i := FirstIndex(queue, (w: QueuedWrite) => IsSignatureFor(w, b));
    if i < |queue| then Some(queue[i].payload.signatureUri) else None
  }

  function PendingPhotos(queue: seq<QueuedWrite>, b: string): seq<Payload> {
    if queue == [] then []
    else
      var last := queue[|queue| - 1];
      PendingPhotos(queue[..|queue| - 1], b)
      + if last.bookingId == b && last.payload.PhotoUpload? then [last.payload] else []
  }

  function PendingEffect(queue: seq<QueuedWrite>, b: string): map<Cell, Json> {
    match PendingPatch(queue, b)
    case None => map[]
    case Some(p) => Effect(p)
  }

  /** In an ordered queue the pending patch can be read off any entry that is one. */
  lemma PendingPatchIs(queue: seq<QueuedWrite>, b: string, i: nat)
    requires Ordered(queue) && i < |queue| && IsPatchFor(queue[i], b)
    ensures PatchIndex(queue, b) == i
    ensures PendingPatch(queue, b) == Some(queue[i].payload.patch)
  {
    var k := PatchIndex(queue, b);
    assert k <= i by {
      assert forall j :: 0 <= j < k ==> !IsPatchFor(queue[j], b);
    }
    forall j | 0 <= j < i ensures !IsPatchFor(queue[j], b) {
      assert MayPrecede(queue[j], queue[i]);
    }
  }

  lemma PendingPatchNone(queue: seq<QueuedWrite>, b: string)
    requires forall w :: w in queue ==> !IsPatchFor(w, b)
    ensures PendingPatch(queue, b) == None
    ensures PatchIndex(queue, b) == |queue|
  {
    forall j | 0 <= j < |queue| ensures !IsPatchFor(queue[j], b) {
      assert queue[j] in queue;
    }
  }

  lemma NoPendingPatch(queue: seq<QueuedWrite>, b: string)
    requires PendingPatch(queue, b) == None
    ensures forall w :: w in queue ==> !IsPatchFor(w, b)
  {
    var k := PatchIndex(queue, b);
    assert forall j :: 0 <= j < k ==> !IsPatchFor(queue[j], b);
  }

  lemma PendingSignatureIs(queue: seq<QueuedWrite>, b: string, i: nat)
    requires Ordered(queue) && i < |queue| && IsSignatureFor(queue[i], b)
    ensures PendingSignature(queue, b) == Some(queue[i].payload.signatureUri)
  {
    var p := (w: QueuedWrite) => IsSignatureFor(w, b);
    var k := FirstIndex(queue, p);
    assert k <= i by {
      assert forall j :: 0 <= j < k ==> !p(queue[j]);
      assert p(queue[i]);
    }
    forall j | 0 <= j < i ensures !p(queue[j]) {
      assert MayPrecede(queue[j], queue[i]);
    }
  }

  lemma PendingSignatureNone(queue: seq<QueuedWrite>, b: string)
    requires forall w :: w in queue ==> !IsSignatureFor(w, b)
    ensures PendingSignature(queue, b) == None
  {
    forall j | 0 <= j < |queue| ensures !IsSignatureFor(queue[j], b) {
      assert queue[j] in queue;
    }
  }

  lemma NoPendingSignature(queue: seq<QueuedWrite>, b: string)
    requires PendingSignature(queue, b) == None
    ensures forall w :: w in queue ==> !IsSignatureFor(w, b)
  {
    var p := (w: QueuedWrite) => IsSignatureFor(w, b);
    var k := FirstIndex(queue, p);
    assert forall j :: 0 <= j < k ==> !p(queue[j]);
  }

  /** The server's view of `b` overridden by what is pending for it. */
  function Overlay(site: Site, b: string, queue: seq<QueuedWrite>): Site {
    Site(
      site.card + PendingEffect(queue, b),
      site.photos + PendingPhotos(queue, b),
      if PendingSignature(queue, b).Some? then PendingSignature(queue, b) else site.signature)
  }

  lemma {:induction false} DrainParts(site: Site, b: string, queue: seq<QueuedWrite>)
    requires Ordered(queue)
    ensures Drain(site, b, queue) == Overlay(site, b, queue)
  {
    if queue == [] {
      PendingPatchNone(queue, b);
      PendingSignatureNone(queue, b);
    } else {
      var n := |queue| - 1;
      assert queue == queue[..n] + [queue[n]];
      DrainParts(site, b, queue[..n]);
      OverlaySnoc(site, b, queue[..n], queue[n]);
    }
  }

  lemma PhotosSnoc(queue: seq<QueuedWrite>, w: QueuedWrite, b: string)
    ensures PendingPhotos(queue + [w], b) ==
            PendingPhotos(queue, b) + if w.bookingId == b && w.payload.PhotoUpload? then [w.payload] else []
  {
    assert (queue + [w])[..|queue|] == queue;
  }

  lemma CardSnoc(card: Card, b: string, queue: seq<QueuedWrite>, w: QueuedWrite)
    requires Ordered(queue + [w])
    ensures card + PendingEffect(queue + [w], b) ==
            if IsPatchFor(w, b) then Apply(card + PendingEffect(queue, b), w.payload.patch) else card + PendingEffect(queue, b)
  {
    PatchSnoc(queue, w, b);
  }

  lemma OverlaySnoc(site: Site, b: string, queue: seq<QueuedWrite>, w: QueuedWrite)
    requires Ordered(queue + [w])
    ensures Overlay(site, b, queue + [w]) ==
            if w.bookingId == b then Send(Overlay(site, b, queue), w.payload) else Overlay(site, b, queue)
  {
    hide PendingEffect;
    hide PendingSignature;
    hide PendingPhotos;
    hide JobCards.Apply;
    PhotosSnoc(queue, w, b);
    CardSnoc(site.card, b, queue, w);
    SignatureSnoc(queue, w, b);
    assert PendingPhotos(queue, b) + [] == PendingPhotos(queue, b);
    var before, after := Overlay(site, b, queue), Overlay(site, b, queue + [w]);
    if w.bookingId != b {
      assert after.photos == before.photos;
    } else {
      match w.payload
      case JobCardPatch(_) => assert after.photos == before.photos;
      case SignatureUpload(_) => assert after.photos == before.photos;
      case PhotoUpload(_, _, _, _) => assert after.photos == before.photos + [w.payload];
    }
  }

  /** How the pending patch grows with one appended entry. */
  lemma PatchSnoc(queue: seq<QueuedWrite>, w: QueuedWrite, b: string)
    requires Ordered(queue + [w])
    ensures IsPatchFor(w, b) ==> PendingPatch(queue, b) == None && PendingPatch(queue + [w], b) == Some(w.payload.patch)
    ensures !IsPatchFor(w, b) ==> PendingPatch(queue + [w], b) == PendingPatch(queue, b)
  {
    var all := queue + [w];
    assert forall i :: 0 <= i < |queue| ==> all[i] == queue[i] && MayPrecede(all[i], all[|queue|]);
    if IsPatchFor(w, b) {
      PendingPatchNone(queue, b);
      PendingPatchIs(all, b, |queue|);
    } else if PendingPatch(queue, b).Some? {
      var i := PatchIndex(queue, b);
      assert IsPatchFor(all[i], b);
      PendingPatchIs(all, b, i);
    } else {
      NoPendingPatch(queue, b);
      PendingPatchNone(all, b);
    }
  }

  lemma SignatureSnoc(queue: seq<QueuedWrite>, w: QueuedWrite, b: string)
    requires Ordered(queue + [w])
    ensures IsSignatureFor(w, b)
            ==> PendingSignature(queue, b) == None && PendingSignature(queue + [w], b) == Some(w.payload.signatureUri)
    ensures !IsSignatureFor(w, b) ==> PendingSignature(queue + [w], b) == PendingSignature(queue, b)
  {
    var all := queue + [w];
    assert forall i :: 0 <= i < |queue| ==> all[i] == queue[i] && MayPrecede(all[i], all[|queue|]);
    if IsSignatureFor(w, b) {
      PendingSignatureNone(queue, b);
      PendingSignatureIs(all, b, |queue|);
    } else if PendingSignature(queue, b).Some? {
      var i := FirstIndex(queue, (v: QueuedWrite) => IsSignatureFor(v, b));
      assert IsSignatureFor(all[i], b);
      PendingSignatureIs(all, b, i);
    } else {
      NoPendingSignature(queue, b);
      PendingSignatureNone(all, b);
    }
  }
}
