/**
 * The server side of a job-card save. A PUT writes the fields it carries:
 * plain fields are replaced, `readings` are shallow-merged and `checklist`
 * entries are merged per template, answer by answer. A stored card is the map
 * of its cells, so a save overrides exactly the cells the patch mentions.
 */
module JobCards {
  import opened Basics

  datatype Cell =
    | Field(name: string)
    | Reading(key: string)
    | EntryKind(template: string)
    | Answer(template: string, key: string)

  type Card = map<Cell, Json>

  const BLANK_CARD: Card := map[]

  datatype ChecklistEntry = ChecklistEntry(templateId: string, kind: string, answers: map<string, Json>)

  /** A partial job card: every field may be absent. */
  datatype Patch = Patch(
    fields: map<string, Json>,
    readings: Option<map<string, Json>>,
    checklist: Option<seq<ChecklistEntry>>)

  /** The plain fields a PUT may carry; a body with any other is refused. */
  const UPSERT_FIELDS: set<string> := {
    "symptoms", "faultCodes", "diagnosis", "rootCause", "resolution",
    "partsRecommended", "photos", "technicianRemarks", "customerRemarks"}

  /** The API's validation lets the body through. */
  predicate Accepts(p: Patch) {
    p.fields.Keys <= UPSERT_FIELDS
  }

  /** The part of a patch the upsert writes. */
  function Known(p: Patch): Patch {
    p.(fields := map f | f in p.fields && f in UPSERT_FIELDS :: p.fields[f])
  }

  /** `{ ...a, ...b }`: the later patch wins, whole field by whole field. */
  function Merge(a: Patch, b: Patch): Patch {
    Patch(
      a.fields + b.fields,
      if b.readings.Some? then b.readings else a.readings,
      if b.checklist.Some? then b.checklist else a.checklist)
  }

  function FieldCells(p: Patch): map<Cell, Json> {
    map f | f in p.fields :: Field(f) := p.fields[f]
  }

  function ReadingCells(p: Patch): map<Cell, Json> {
    if p.readings.Some? then map k | k in p.readings.value :: Reading(k) := p.readings.value[k] else map[]
  }

  function EntryCells(e: ChecklistEntry): map<Cell, Json> {
    map[EntryKind(e.templateId) := JStr(e.kind)]
    + map k | k in e.answers :: Answer(e.templateId, k) := e.answers[k]
  }

  function ChecklistCells(entries: seq<ChecklistEntry>): (cells: map<Cell, Json>)
    ensures forall x :: x in cells ==> x.EntryKind? || x.Answer?
  {
    if entries == [] then map[]
    else ChecklistCells(entries[..|entries| - 1]) + EntryCells(entries[|entries| - 1])
  }

  function AnswerCells(p: Patch): map<Cell, Json> {
    if p.checklist.Some? then ChecklistCells(p.checklist.value) else map[]
  }

  /** The cells a save of `p` writes. */
  function Effect(p: Patch): map<Cell, Json> {
    FieldCells(p) + ReadingCells(p) + AnswerCells(p)
  }

  function Apply(card: Card, p: Patch): Card {
    card + Effect(p)
  }

  /** Every reading and every checklist cell of `a` that `b` would displace is carried again by `b`. */
  predicate Covers(a: Patch, b: Patch) {
    && (a.readings.Some? && b.readings.Some? ==> a.readings.value.Keys <= b.readings.value.Keys)
    && (a.checklist.Some? && b.checklist.Some?
        ==> ChecklistCells(a.checklist.value).Keys <= ChecklistCells(b.checklist.value).Keys)
  }

  /** What a save of `p` writes to the cell `x`, if anything. */
  function WrittenAt(p: Patch, x: Cell): Option<Json> {
    match x
    case Field(f) => if f in p.fields then Some(p.fields[f]) else None
    case Reading(k) =>
      if p.readings.Some? && k in p.readings.value then Some(p.readings.value[k]) else None
    case _ =>
      if p.checklist.Some? && x in ChecklistCells(p.checklist.value)
      then Some(ChecklistCells(p.checklist.value)[x]) else None
  }

  lemma EffectAt(p: Patch, x: Cell)
    ensures x in Effect(p) <==> WrittenAt(p, x).Some?
    ensures x in Effect(p) ==> Effect(p)[x] == WrittenAt(p, x).value
  {
    match x
    case Field(f) =>
      assert x !in ReadingCells(p) && x !in AnswerCells(p);
    case Reading(k) =>
      assert x !in FieldCells(p) && x !in AnswerCells(p);
    case _ =>
      assert x !in FieldCells(p) && x !in ReadingCells(p);
  }

  lemma MergeAt(a: Patch, b: Patch, x: Cell)
    ensures WrittenAt(b, x).Some? ==> WrittenAt(Merge(a, b), x) == WrittenAt(b, x)
    ensures WrittenAt(b, x).None? ==> WrittenAt(Merge(a, b), x) == None || WrittenAt(Merge(a, b), x) == WrittenAt(a, x)
    ensures x.Field? && WrittenAt(a, x).Some? ==> WrittenAt(Merge(a, b), x).Some?
  {
  }

  /**
   * The merged patch writes a part of what the two saves write, with the same
   * values, always what the later one writes, and every plain field of the earlier one.
   */
  lemma MergeEffect(a: Patch, b: Patch)
    ensures Effect(b).Keys <= Effect(Merge(a, b)).Keys <= Effect(a).Keys + Effect(b).Keys
    ensures forall x :: x in Effect(Merge(a, b)) ==> Effect(Merge(a, b))[x] == (Effect(a) + Effect(b))[x]
    ensures forall f :: Field(f) in Effect(a) ==> Field(f) in Effect(Merge(a, b))
  {
    var ea, eb, em := Effect(a), Effect(b), Effect(Merge(a, b));
    forall x: Cell
      ensures x in eb ==> x in em
      ensures x in em ==> x in ea + eb && em[x] == (ea + eb)[x]
      ensures x.Field? && x in ea ==> x in em
    {
      EffectAt(a, x);
      EffectAt(b, x);
      EffectAt(Merge(a, b), x);
      MergeAt(a, b, x);
    }
  }

  lemma CoversAt(a: Patch, b: Patch, x: Cell)
    requires Covers(a, b)
    ensures WrittenAt(a, x).Some? ==> WrittenAt(Merge(a, b), x).Some?
  {
  }

  lemma CoversWhenKept(a: Patch, b: Patch)
    requires forall x: Cell :: WrittenAt(a, x).Some? ==> WrittenAt(Merge(a, b), x).Some?
    ensures Covers(a, b)
  {
    if a.readings.Some? && b.readings.Some? {
      forall k | k in a.readings.value ensures k in b.readings.value {
        assert WrittenAt(a, Reading(k)).Some?;
      }
    }
    if a.checklist.Some? && b.checklist.Some? {
      forall x | x in ChecklistCells(a.checklist.value) ensures x in ChecklistCells(b.checklist.value) {
        ChecklistWritten(a, b, x);
      }
    }
  }

  lemma ChecklistWritten(a: Patch, b: Patch, x: Cell)
    requires a.checklist.Some? && b.checklist.Some? && x in ChecklistCells(a.checklist.value)
    ensures WrittenAt(a, x).Some?
    ensures WrittenAt(Merge(a, b), x).Some? <==> x in ChecklistCells(b.checklist.value)
  {
  }

  lemma CoversKeys(a: Patch, b: Patch)
    ensures Covers(a, b) <==> Effect(a).Keys <= Effect(Merge(a, b)).Keys
  {
    forall x: Cell
      ensures x in Effect(a).Keys <==> WrittenAt(a, x).Some?
      ensures x in Effect(Merge(a, b)).Keys <==> WrittenAt(Merge(a, b), x).Some?
    {
      EffectAt(a, x);
      EffectAt(Merge(a, b), x);
    }
    if Covers(a, b) {
      forall x: Cell ensures WrittenAt(a, x).Some? ==> WrittenAt(Merge(a, b), x).Some? {
        CoversAt(a, b, x);
      }
    } else if Effect(a).Keys <= Effect(Merge(a, b)).Keys {
      CoversWhenKept(a, b);
    }
  }

  /** Overriding by maps that agree and have the same keys. */
  lemma SameOverride(card: Card, ea: map<Cell, Json>, eb: map<Cell, Json>, em: map<Cell, Json>)
    requires forall x :: x in em ==> x in ea + eb && em[x] == (ea + eb)[x]
    ensures em.Keys == ea.Keys + eb.Keys ==> card + ea + eb == card + em
    ensures BLANK_CARD + ea + eb == BLANK_CARD + em ==> em.Keys == ea.Keys + eb.Keys
  {
    if em.Keys == ea.Keys + eb.Keys {
      assert em == ea + eb;
      assert card + ea + eb == card + (ea + eb);
    }
    assert (BLANK_CARD + ea + eb).Keys == ea.Keys + eb.Keys;
    assert (BLANK_CARD + em).Keys == em.Keys;
  }

  /**
   * Sending one coalesced patch means the same as sending the two patches, on
   * every card, exactly when the later patch carries again every reading and
   * answer of the earlier one that it displaces.
   */
  lemma CoalescingIsExactIffCovered(a: Patch, b: Patch)
    ensures (forall card: Card :: Apply(Apply(card, a), b) == Apply(card, Merge(a, b))) <==> Covers(a, b)
  {
    var ea, eb, em := Effect(a), Effect(b), Effect(Merge(a, b));
    CoversKeys(a, b);
    MergeEffect(a, b);
    assert Covers(a, b) <==> em.Keys == ea.Keys + eb.Keys;
    forall card: Card
      ensures Covers(a, b) ==> Apply(Apply(card, a), b) == Apply(card, Merge(a, b))
    {
      SameOverride(card, ea, eb, em);
    }
    if forall card: Card :: Apply(Apply(card, a), b) == Apply(card, Merge(a, b)) {
      var empty := BLANK_CARD;
      assert Apply(Apply(empty, a), b) == Apply(empty, Merge(a, b));
      SameOverride(empty, ea, eb, em);
    }
  }

  const NOTED := Patch(map[], Some(map["gasPressurePsi" := JNum(68.0)]), None)
  const CLEARED := Patch(map[], Some(map[]), None)

  /** A reading noted in one offline edit and absent from the next is lost by coalescing. */
  lemma CoalescingCanLoseAReading()
    ensures Apply(Apply(BLANK_CARD, NOTED), CLEARED) != Apply(BLANK_CARD, Merge(NOTED, CLEARED))
  {
    var x := Reading("gasPressurePsi");
    EffectAt(NOTED, x);
    EffectAt(Merge(NOTED, CLEARED), x);
    assert x in Apply(Apply(BLANK_CARD, NOTED), CLEARED);
    assert x !in Apply(BLANK_CARD, Merge(NOTED, CLEARED));
  }

  // ---------------------------------------------------------------- cells

  function At(card: Card, x: Cell): Option<Json> {
    if x in card then Some(card[x]) else None
  }

  lemma AtOverride(a: Card, b: Card, x: Cell)
    ensures At(a + b, x) == if x in b then Some(b[x]) else At(a, x)
  {
  }

  lemma SameCells(m: Card, n: Card)
    requires forall x :: At(m, x) == At(n, x)
    ensures m == n
  {
    forall x ensures x in m <==> x in n {
      assert At(m, x) == At(n, x);
    }
    forall x | x in m ensures m[x] == n[x] {
      assert At(m, x) == At(n, x);
    }
  }

  // ---------------------------------------------------------------- merging checklists on the server

  function EntryIndex(checklist: seq<ChecklistEntry>, templateId: string): (i: nat)
    ensures i <= |checklist|
    ensures i < |checklist| ==> checklist[i].templateId == templateId
    ensures forall j :: 0 <= j < i ==> checklist[j].templateId != templateId
  {
    var p := (c: ChecklistEntry) => c.templateId == templateId;
    assert forall j :: 0 <= j < FirstIndex(checklist, p) ==> !p(checklist[j]);
    FirstIndex(checklist, (c: ChecklistEntry) => c.templateId == templateId)
  }

  ghost predicate DistinctEntries(entries: seq<ChecklistEntry>) {
    forall i, j :: 0 <= i < j < |entries| ==> entries[i].templateId != entries[j].templateId
  }

  /** One round of the server's merge: answers are added to the entry of the template, or the entry is new. */
  function MergeEntry(current: seq<ChecklistEntry>, e: ChecklistEntry): seq<ChecklistEntry> {
    var i := EntryIndex(current, e.templateId);
    if i < |current| then current[i := e.(answers := current[i].answers + e.answers)] else current + [e]
  }

  function MergeEntries(current: seq<ChecklistEntry>, incoming: seq<ChecklistEntry>): seq<ChecklistEntry> {
    if incoming == [] then current
    else MergeEntry(MergeEntries(current, incoming[..|incoming| - 1]), incoming[|incoming| - 1])
  }

  lemma EntryIndexIs(entries: seq<ChecklistEntry>, i: nat)
    requires DistinctEntries(entries) && i < |entries|
    ensures EntryIndex(entries, entries[i].templateId) == i
  {
  }

  lemma NoEntry(entries: seq<ChecklistEntry>, t: string)
    ensures EntryIndex(entries, t) == |entries| <==> forall j :: 0 <= j < |entries| ==> entries[j].templateId != t
  {
  }

  lemma MergeEntryKeepsDistinct(current: seq<ChecklistEntry>, e: ChecklistEntry)
    requires DistinctEntries(current)
    ensures DistinctEntries(MergeEntry(current, e))
  {
    NoEntry(current, e.templateId);
  }

  lemma {:induction false} MergeKeepsDistinct(current: seq<ChecklistEntry>, incoming: seq<ChecklistEntry>)
    requires DistinctEntries(current)
    ensures DistinctEntries(MergeEntries(current, incoming))
  {
    if incoming != [] {
      MergeKeepsDistinct(current, incoming[..|incoming| - 1]);
      MergeEntryKeepsDistinct(MergeEntries(current, incoming[..|incoming| - 1]), incoming[|incoming| - 1]);
    }
  }

  predicate ChecklistCell(x: Cell) {
    x.EntryKind? || x.Answer?
  }

  lemma CellOfEntry(e: ChecklistEntry, x: Cell)
    ensures x in EntryCells(e) ==> ChecklistCell(x) && x.template == e.templateId
  {
  }

  /** With distinct entries the cells of a template are those of its entry. */
  lemma {:induction false} CellsOfTemplate(entries: seq<ChecklistEntry>, x: Cell)
    requires DistinctEntries(entries) && ChecklistCell(x)
    ensures var i := EntryIndex(entries, x.template);
            At(ChecklistCells(entries), x) == if i < |entries| then At(EntryCells(entries[i]), x) else None
  {
    hide EntryCells;
    NoEntry(entries, x.template);
    if entries != [] {
      var n := |entries| - 1;
      var init, last := entries[..n], entries[n];
      CellsOfTemplate(init, x);
      CellOfEntry(last, x);
      NoEntry(init, x.template);
      AtOverride(ChecklistCells(init), EntryCells(last), x);
      var i := EntryIndex(entries, x.template);
      if i < n {
        EntryIndexIs(entries, i);
        EntryIndexIs(init, i);
      } else if i == n {
        assert forall j :: 0 <= j < n ==> init[j] == entries[j];
      }
    }
  }

  lemma EntryCellAt(e: ChecklistEntry, x: Cell)
    ensures At(EntryCells(e), x) ==
            match x
            case EntryKind(t) => if t == e.templateId then Some(JStr(e.kind)) else None
            case Answer(t, k) => if t == e.templateId && k in e.answers then Some(e.answers[k]) else None
            case _ => None
  {
  }

  lemma MergedEntryCells(prev: ChecklistEntry, e: ChecklistEntry, x: Cell)
    requires prev.templateId == e.templateId
    ensures At(EntryCells(e.(answers := prev.answers + e.answers)), x)
         == if x in EntryCells(e) then Some(EntryCells(e)[x]) else At(EntryCells(prev), x)
  {
    hide EntryCells;
    EntryCellAt(prev, x);
    EntryCellAt(e, x);
    EntryCellAt(e.(answers := prev.answers + e.answers), x);
  }

  lemma MergeEntryAt(current: seq<ChecklistEntry>, e: ChecklistEntry, x: Cell)
    requires DistinctEntries(current) && ChecklistCell(x)
    ensures At(ChecklistCells(MergeEntry(current, e)), x) == At(ChecklistCells(current) + EntryCells(e), x)
  {
    hide EntryCells;
    hide ChecklistCells;
    var after, i, k := MergeEntry(current, e), EntryIndex(current, e.templateId), EntryIndex(current, x.template);
    MergeEntryKeepsDistinct(current, e);
    CellsOfTemplate(current, x);
    CellsOfTemplate(after, x);
    CellOfEntry(e, x);
    AtOverride(ChecklistCells(current), EntryCells(e), x);
    NoEntry(current, x.template);
    NoEntry(current, e.templateId);
    NoEntry(after, x.template);
    if k < |current| {
      assert after[k].templateId == x.template;
      EntryIndexIs(after, k);
      if k == i {
        MergedEntryCells(current[k], e, x);
      }
    } else if x.template == e.templateId {
      EntryIndexIs(after, |current|);
    }
  }

  lemma MergeEntryIsOverride(current: seq<ChecklistEntry>, e: ChecklistEntry)
    requires DistinctEntries(current)
    ensures ChecklistCells(MergeEntry(current, e)) == ChecklistCells(current) + EntryCells(e)
  {
    hide EntryCells;
    hide MergeEntry;
    var after, sum := ChecklistCells(MergeEntry(current, e)), ChecklistCells(current) + EntryCells(e);
    forall x ensures At(after, x) == At(sum, x) {
      if ChecklistCell(x) {
        MergeEntryAt(current, e, x);
      } else {
        CellOfEntry(e, x);
      }
    }
    SameCells(after, sum);
  }

  lemma OverrideAssociates(a: Card, b: Card, c: Card)
    ensures a + b + c == a + (b + c)
  {
  }

  /** Merging entry by entry, answer by answer, is overriding the cells of the checklist. */
  lemma {:induction false} MergeIsOverride(current: seq<ChecklistEntry>, incoming: seq<ChecklistEntry>)
    requires DistinctEntries(current)
    ensures ChecklistCells(MergeEntries(current, incoming)) == ChecklistCells(current) + ChecklistCells(incoming)
  {
    hide EntryCells;
    hide MergeEntry;
    hide DistinctEntries;
    if incoming != [] {
      var init, last := incoming[..|incoming| - 1], incoming[|incoming| - 1];
      MergeIsOverride(current, init);
      MergeKeepsDistinct(current, init);
      MergeEntryIsOverride(MergeEntries(current, init), last);
      OverrideAssociates(ChecklistCells(current), ChecklistCells(init), EntryCells(last));
    }
  }

  /** The incoming checklist lists the stored templates first, in their order, with all their answers answered again. */
  ghost predicate CarriesOn(current: seq<ChecklistEntry>, incoming: seq<ChecklistEntry>) {
    && |current| <= |incoming|
    && forall k :: 0 <= k < |current| ==>
         current[k].templateId == incoming[k].templateId && current[k].answers.Keys <= incoming[k].answers.Keys
  }

  /** What is stored keeps its place and its answered keys through every merge. */
  lemma {:induction false} MergeKeepsStored(current: seq<ChecklistEntry>, incoming: seq<ChecklistEntry>)
    ensures CarriesOn(current, MergeEntries(current, incoming))
  {
    if incoming != [] {
      MergeKeepsStored(current, incoming[..|incoming| - 1]);
      EntryPlaced(MergeEntries(current, incoming[..|incoming| - 1]), incoming[|incoming| - 1]);
    }
  }

  lemma EntryPlaced(current: seq<ChecklistEntry>, e: ChecklistEntry)
    ensures CarriesOn(current, MergeEntry(current, e))
  {
  }

  /** Half way through: the entries merged so far are as sent, the rest as stored. */
  lemma {:induction false} MergedSoFar(current: seq<ChecklistEntry>, incoming: seq<ChecklistEntry>, n: nat)
    requires CarriesOn(current, incoming) && DistinctEntries(incoming) && n <= |incoming|
    ensures MergeEntries(current, incoming[..n])
         == incoming[..n] + if n < |current| then current[n..] else []
  {
    if n == 0 {
      assert current[0..] == current;
    } else {
      MergedSoFar(current, incoming, n - 1);
      assert incoming[..n][..n - 1] == incoming[..n - 1];
      var so, e := MergeEntries(current, incoming[..n - 1]), incoming[n - 1];
      MergeNextEntry(current, incoming, n, so);
    }
  }

  lemma ResentEntry(stored: ChecklistEntry, e: ChecklistEntry)
    requires stored.templateId == e.templateId && stored.answers.Keys <= e.answers.Keys
    ensures e.(answers := stored.answers + e.answers) == e
  {
    assert stored.answers + e.answers == e.answers;
  }

  /** Where the next entry to merge stands: in its own place, or nowhere yet. */
  lemma NextEntryIndex(incoming: seq<ChecklistEntry>, n: nat, so: seq<ChecklistEntry>)
    requires DistinctEntries(incoming) && n < |incoming| && n <= |so| <= |incoming|
    requires forall j :: 0 <= j < |so| ==> so[j].templateId == incoming[j].templateId
    ensures EntryIndex(so, incoming[n].templateId) == n
  {
    var t := incoming[n].templateId;
    assert forall j :: 0 <= j < n ==> so[j].templateId != t;
    if n < |so| {
      assert so[n].templateId == t;
    }
  }

  lemma MergeNextEntry(current: seq<ChecklistEntry>, incoming: seq<ChecklistEntry>, n: nat, so: seq<ChecklistEntry>)
    requires CarriesOn(current, incoming) && DistinctEntries(incoming) && 0 < n <= |incoming|
    requires so == incoming[..n - 1] + if n - 1 < |current| then current[n - 1..] else []
    ensures MergeEntry(so, incoming[n - 1]) == incoming[..n] + if n < |current| then current[n..] else []
  {
    hide EntryIndex;
    hide DistinctEntries;
    var e := incoming[n - 1];
    forall j | 0 <= j < |so| ensures so[j].templateId == incoming[j].templateId {
    }
    NextEntryIndex(incoming, n - 1, so);
    if n - 1 < |current| {
      ResentEntry(current[n - 1], e);
      assert so[n - 1] == current[n - 1];
      assert MergeEntry(so, e) == so[n - 1 := e];
    }
  }

  /**
   * A saved checklist comes back as it was sent exactly when it has one entry
   * per template, lists the stored templates first in their order, and answers
   * again every item answered before. An answer cannot be cleared.
   */
  lemma ChecklistComesBackIff(current: seq<ChecklistEntry>, incoming: seq<ChecklistEntry>)
    requires DistinctEntries(current)
    ensures MergeEntries(current, incoming) == incoming <==> DistinctEntries(incoming) && CarriesOn(current, incoming)
  {
    MergeKeepsStored(current, incoming);
    MergeKeepsDistinct(current, incoming);
    if DistinctEntries(incoming) && CarriesOn(current, incoming) {
      MergedSoFar(current, incoming, |incoming|);
      assert incoming[..|incoming|] == incoming;
    }
  }
}
