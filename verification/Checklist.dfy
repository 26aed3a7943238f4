/**
 * Checklist answers on a job card: reading and setting them, deciding which
 * required items are still missing, counting progress, and deriving readings.
 */
module Checklist {
  import opened Basics
  import opened Text
  import opened JobCards

  datatype ItemType = BoolItem | NumberItem | TextItem | PhotoItem | OtherItem
  datatype Item = Item(key: string, title: string, itemType: ItemType, required: bool)
  datatype Template = Template(id: string, kind: string, name: string, items: seq<Item>)
  datatype MissingItem = MissingItem(templateId: string, templateName: string, kind: string, key: string, title: string)

  /** `None` is JavaScript's `undefined`. */
  function AnswerIn(e: ChecklistEntry, key: string): Option<Json> {
    if key in e.answers then Some(e.answers[key]) else None
  }

  function GetAnswer(checklist: seq<ChecklistEntry>, templateId: string, key: string): Option<Json> {
    var idx := EntryIndex(checklist, templateId);
    if idx < |checklist| then AnswerIn(checklist[idx], key) else None
  }

  function WithAnswer(e: ChecklistEntry, key: string, value: Option<Json>): ChecklistEntry {
    e.(answers := if value.None? then e.answers - {key} else e.answers[key := value.value])
  }

  /** Immutable update of the first entry of the template, adding one if there is none; `None` clears. */
  function SetAnswer(checklist: seq<ChecklistEntry>, templateId: string, kind: string, key: string, value: Option<Json>): seq<ChecklistEntry> {
    var idx := EntryIndex(checklist, templateId);
    if idx < |checklist| then checklist[idx := WithAnswer(checklist[idx], key, value)]
    else checklist + [WithAnswer(ChecklistEntry(templateId, kind, map[]), key, value)]
  }

  /** What is set is what is read back, and every other answer is as it was. */
  lemma GetAfterSet(checklist: seq<ChecklistEntry>, templateId: string, kind: string, key: string, value: Option<Json>, t: string, k: string)
    ensures GetAnswer(SetAnswer(checklist, templateId, kind, key, value), t, k) ==
            if t == templateId && k == key then value else GetAnswer(checklist, t, k)
  {
    var idx, after := EntryIndex(checklist, templateId), SetAnswer(checklist, templateId, kind, key, value);
    assert forall j :: 0 <= j < |checklist| && j != idx ==> after[j] == checklist[j];
    SameFirst(checklist, after, t);
    if EntryIndex(checklist, t) == |checklist| && EntryIndex(after, t) < |after| {
      assert after[|checklist|].templateId == t;
    }
    if t == templateId && idx == |checklist| {
      assert after[|checklist|].templateId == templateId;
    }
  }

  /** An update that keeps template ids, or appends, moves a first match only if there was none. */
  lemma SameFirst(a: seq<ChecklistEntry>, b: seq<ChecklistEntry>, t: string)
    requires |a| <= |b| <= |a| + 1 && forall j :: 0 <= j < |a| ==> a[j].templateId == b[j].templateId
    ensures EntryIndex(a, t) < |a| ==> EntryIndex(b, t) == EntryIndex(a, t)
    ensures EntryIndex(a, t) == |a| ==> EntryIndex(b, t) >= |a|
  {
    forall k | 0 <= k < EntryIndex(a, t) ensures b[k].templateId != t {
    }
  }

  lemma SetKeepsDistinct(checklist: seq<ChecklistEntry>, templateId: string, kind: string, key: string, value: Option<Json>)
    requires DistinctEntries(checklist)
    ensures DistinctEntries(SetAnswer(checklist, templateId, kind, key, value))
  {
  }

  lemma AnswerIsCell(checklist: seq<ChecklistEntry>, t: string, k: string)
    requires DistinctEntries(checklist)
    ensures GetAnswer(checklist, t, k) == At(ChecklistCells(checklist), Answer(t, k))
  {
    hide EntryCells;
    hide ChecklistCells;
    CellsOfTemplate(checklist, Answer(t, k));
    var i := EntryIndex(checklist, t);
    if i < |checklist| {
      EntryCellAt(checklist[i], Answer(t, k));
    }
  }

  /** After a save every item answered reads as answered, and every other one as it was stored before. */
  lemma AnswerAfterSave(stored: seq<ChecklistEntry>, sent: seq<ChecklistEntry>, t: string, k: string)
    requires DistinctEntries(stored) && DistinctEntries(sent)
    ensures GetAnswer(MergeEntries(stored, sent), t, k)
         == if GetAnswer(sent, t, k).Some? then GetAnswer(sent, t, k) else GetAnswer(stored, t, k)
  {
    hide MergeEntries;
    hide GetAnswer;
    hide ChecklistCells;
    MergeKeepsDistinct(stored, sent);
    MergeIsOverride(stored, sent);
    AnswerIsCell(stored, t, k);
    AnswerIsCell(sent, t, k);
    AnswerIsCell(MergeEntries(stored, sent), t, k);
    AtOverride(ChecklistCells(stored), ChecklistCells(sent), Answer(t, k));
  }

  /** Clearing a stored answer and saving brings the answer back: the server only ever adds answers. */
  lemma ClearedAnswerComesBack(stored: seq<ChecklistEntry>, t: string, kind: string, key: string)
    requires DistinctEntries(stored)
    ensures var cleared := SetAnswer(stored, t, kind, key, None);
            && GetAnswer(cleared, t, key) == None
            && GetAnswer(MergeEntries(stored, cleared), t, key) == GetAnswer(stored, t, key)
  {
    var cleared := SetAnswer(stored, t, kind, key, None);
    SetKeepsDistinct(stored, t, kind, key, None);
    GetAfterSet(stored, t, kind, key, None, t, key);
    AnswerAfterSave(stored, cleared, t, key);
  }

  predicate IsAnswered(itemType: ItemType, value: Option<Json>) {
    match itemType
    case BoolItem => value.Some? && value.value.JBool?
    case NumberItem => value.Some? && value.value.JNum?
    case TextItem => value.Some? && value.value.JStr? && Trim(value.value.s) != ""
    case PhotoItem => value.Some? && value.value.JStr? && Trim(value.value.s) != ""
    case OtherItem => false
  }

  /** What counts as an answer to an item: a truth value, a finite number, or a text or photo that is not blank. */
  ghost predicate ValidAnswer(itemType: ItemType, value: Option<Json>) {
    match itemType
    case BoolItem => exists b: bool :: value == Some(JBool(b))
    case NumberItem => exists n: real :: value == Some(JNum(n))
    case TextItem => exists s: string :: value == Some(JStr(s)) && !Blank(s)
    case PhotoItem => exists s: string :: value == Some(JStr(s)) && !Blank(s)
    case OtherItem => false
  }

  lemma ValidAnswerIff(itemType: ItemType, value: Option<Json>)
    ensures IsAnswered(itemType, value) <==> ValidAnswer(itemType, value)
  {
    hide Trim;
    hide Blank;
    if value.Some? && value.value.JStr? {
      TrimEmptyIff(value.value.s);
    }
    if value.Some? && value.value.JBool? {
      assert value == Some(JBool(value.value.b));
    }
    if value.Some? && value.value.JNum? {
      assert value == Some(JNum(value.value.n));
    }
  }

  /** A text or a photo is an answer exactly when some character of it is not white space. */
  lemma TextAnswersIff(s: string)
    ensures IsAnswered(TextItem, Some(JStr(s))) <==> !Blank(s)
    ensures IsAnswered(PhotoItem, Some(JStr(s))) <==> !Blank(s)
  {
    TrimEmptyIff(s);
  }

  predicate Answered(t: Template, item: Item, checklist: seq<ChecklistEntry>) {
    IsAnswered(item.itemType, GetAnswer(checklist, t.id, item.key))
  }

  function Missing(t: Template, item: Item): MissingItem {
    MissingItem(t.id, t.name, t.kind, item.key, item.title)
  }

  predicate IsMissing(t: Template, item: Item, checklist: seq<ChecklistEntry>) {
    item.required && !Answered(t, item, checklist)
  }

  /** The missing items among the first items of a template, in order. */
  function MissingAmong(t: Template, items: seq<Item>, checklist: seq<ChecklistEntry>): seq<MissingItem> {
    if items == [] then []
    else
      var item := items[|items| - 1];
      MissingAmong(t, items[..|items| - 1], checklist) + if IsMissing(t, item, checklist) then [Missing(t, item)] else []
  }

  function MissingRequired(templates: seq<Template>, checklist: seq<ChecklistEntry>): seq<MissingItem> {
    if templates == [] then []
    else
      var t := templates[|templates| - 1];
      MissingRequired(templates[..|templates| - 1], checklist) + MissingAmong(t, t.items, checklist)
  }

  method FindMissingRequired(templates: seq<Template>, checklist: seq<ChecklistEntry>) returns (missing: seq<MissingItem>)
    ensures missing == MissingRequired(templates, checklist)
  {
    missing := [];
    var n := 0;
    while n < |templates|
      invariant 0 <= n <= |templates|
      invariant missing == MissingRequired(templates[..n], checklist)
    {
      var t := templates[n];
      var i := 0;
      while i < |t.items|
        invariant 0 <= i <= |t.items|
        invariant missing == MissingRequired(templates[..n], checklist) + MissingAmong(t, t.items[..i], checklist)
      {
        assert t.items[..i + 1][..i] == t.items[..i];
        if t.items[i].required && !IsAnswered(t.items[i].itemType, GetAnswer(checklist, t.id, t.items[i].key)) {
          missing := missing + [MissingItem(t.id, t.name, t.kind, t.items[i].key, t.items[i].title)];
        }
        i := i + 1;
      }
      assert t.items[..i] == t.items;
      assert templates[..n + 1][..n] == templates[..n];
      n := n + 1;
    }
    assert templates[..n] == templates;
  }

  // Which items are missing, read off the templates and the answers alone.

  ghost predicate AnsweredIn(t: Template, checklist: seq<ChecklistEntry>, i: nat) {
    i < |t.items| && ValidAnswer(t.items[i].itemType, GetAnswer(checklist, t.id, t.items[i].key))
  }

  ghost predicate MissingIn(t: Template, checklist: seq<ChecklistEntry>, i: nat) {
    i < |t.items| && t.items[i].required && !ValidAnswer(t.items[i].itemType, GetAnswer(checklist, t.id, t.items[i].key))
  }

  ghost predicate MissingAt(templates: seq<Template>, checklist: seq<ChecklistEntry>, at: (nat, nat)) {
    at.0 < |templates| && at.1 < |templates[at.0].items| && MissingIn(templates[at.0], checklist, at.1)
  }

  ghost predicate Before(a: (nat, nat), b: (nat, nat)) {
    a.0 < b.0 || (a.0 == b.0 && a.1 < b.1)
  }

  ghost predicate NamesIn(t: Template, checklist: seq<ChecklistEntry>, i: nat, m: MissingItem) {
    MissingIn(t, checklist, i) && m == MissingItem(t.id, t.name, t.kind, t.items[i].key, t.items[i].title)
  }

  ghost predicate Names(templates: seq<Template>, checklist: seq<ChecklistEntry>, at: (nat, nat), m: MissingItem) {
    at.0 < |templates| && NamesIn(templates[at.0], checklist, at.1, m)
  }

  /** `list` names the missing items among the first `n` of a template, which stand at `places`. */
  ghost predicate OwnPlaces(t: Template, checklist: seq<ChecklistEntry>, n: nat, list: seq<MissingItem>, places: seq<nat>) {
    && |places| == |list|
    && (forall k :: 0 <= k < |places| ==> NamesIn(t, checklist, places[k], list[k]))
    && (forall k, l :: 0 <= k < l < |places| ==> places[k] < places[l])
    && (forall i :: i in places <==> 0 <= i < n && MissingIn(t, checklist, i))
  }

  /** `list` names the missing items of all templates, which stand at `places`, in the order of the places. */
  ghost predicate PlacedBy(templates: seq<Template>, checklist: seq<ChecklistEntry>, list: seq<MissingItem>, places: seq<(nat, nat)>) {
    && |places| == |list|
    && (forall k :: 0 <= k < |places| ==> Names(templates, checklist, places[k], list[k]))
    && (forall k, l :: 0 <= k < l < |places| ==> Before(places[k], places[l]))
    && (forall at: (nat, nat) :: MissingAt(templates, checklist, at) ==> at in places)
  }

  lemma {:induction false} MissingPlaces(t: Template, checklist: seq<ChecklistEntry>, n: nat) returns (places: seq<nat>)
    requires n <= |t.items|
    ensures OwnPlaces(t, checklist, n, MissingAmong(t, t.items[..n], checklist), places)
  {
    hide GetAnswer;
    hide ValidAnswer;
    if n == 0 {
      places := [];
    } else {
      places := MissingPlaces(t, checklist, n - 1);
      assert t.items[..n][..n - 1] == t.items[..n - 1];
      MissingInIff(t, checklist, n - 1);
      if MissingIn(t, checklist, n - 1) {
        forall k | 0 <= k < |places| ensures places[k] < n - 1 {
          assert places[k] in places;
        }
        places := places + [n - 1];
      }
    }
  }

  lemma MissingInIff(t: Template, checklist: seq<ChecklistEntry>, i: nat)
    requires i < |t.items|
    ensures MissingIn(t, checklist, i) <==> IsMissing(t, t.items[i], checklist)
    ensures AnsweredIn(t, checklist, i) <==> Answered(t, t.items[i], checklist)
  {
    hide GetAnswer;
    ValidAnswerIff(t.items[i].itemType, GetAnswer(checklist, t.id, t.items[i].key));
  }

  /**
   * The missing list names exactly the required items without a valid answer,
   * template by template and item by item, each with its five fields.
   */
  lemma {:induction false} MissingExactly(templates: seq<Template>, checklist: seq<ChecklistEntry>) returns (places: seq<(nat, nat)>)
    ensures PlacedBy(templates, checklist, MissingRequired(templates, checklist), places)
  {
    hide PlacedBy;
    hide OwnPlaces;
    hide MissingAmong;
    if templates == [] {
      places := [];
      assert PlacedBy(templates, checklist, [], places) by { NothingMissing(checklist); }
    } else {
      var n := |templates| - 1;
      var t := templates[n];
      var before := MissingExactly(templates[..n], checklist);
      var own := MissingPlaces(t, checklist, |t.items|);
      assert t.items[..|t.items|] == t.items;
      places := before + OnTemplate(n, own);
      PlacesJoin(templates, checklist, MissingRequired(templates[..n], checklist), before, MissingAmong(t, t.items, checklist), own);
    }
  }

  lemma NothingMissing(checklist: seq<ChecklistEntry>)
    ensures PlacedBy([], checklist, [], [])
  {
  }

  function OnTemplate(n: nat, own: seq<nat>): seq<(nat, nat)> {
    seq(|own|, i requires 0 <= i < |own| => (n, own[i]))
  }

  lemma NamedLater(templates: seq<Template>, checklist: seq<ChecklistEntry>, at: (nat, nat), m: MissingItem)
    requires templates != [] && Names(templates[..|templates| - 1], checklist, at, m)
    ensures Names(templates, checklist, at, m) && at.0 < |templates| - 1
  {
    hide NamesIn;
  }

  lemma PlacesJoin(templates: seq<Template>, checklist: seq<ChecklistEntry>,
                   list: seq<MissingItem>, before: seq<(nat, nat)>, last: seq<MissingItem>, own: seq<nat>)
    requires templates != []
    requires var n := |templates| - 1;
             && PlacedBy(templates[..n], checklist, list, before)
             && OwnPlaces(templates[n], checklist, |templates[n].items|, last, own)
    ensures PlacedBy(templates, checklist, list + last, before + OnTemplate(|templates| - 1, own))
  {
    hide MissingIn;
    hide NamesIn;
    hide Names;
    var n := |templates| - 1;
    var places, all := before + OnTemplate(n, own), list + last;
    forall k | 0 <= k < |before| ensures Names(templates, checklist, before[k], list[k]) && before[k].0 < n {
      NamedLater(templates, checklist, before[k], list[k]);
    }
    forall k | 0 <= k < |places| ensures Names(templates, checklist, places[k], all[k]) {
      if |before| <= k {
        assert NamesIn(templates[n], checklist, own[k - |before|], last[k - |before|]);
        NamedNow(templates, checklist, own[k - |before|], last[k - |before|]);
      }
    }
    AllJoined(templates, checklist, before, own);
  }

  lemma NamedNow(templates: seq<Template>, checklist: seq<ChecklistEntry>, i: nat, m: MissingItem)
    requires templates != [] && NamesIn(templates[|templates| - 1], checklist, i, m)
    ensures Names(templates, checklist, (|templates| - 1, i), m)
  {
  }

  lemma AllJoined(templates: seq<Template>, checklist: seq<ChecklistEntry>, before: seq<(nat, nat)>, own: seq<nat>)
    requires templates != []
    requires var n := |templates| - 1;
             && (forall at: (nat, nat) :: MissingAt(templates[..n], checklist, at) ==> at in before)
             && (forall i :: i in own <==> 0 <= i < |templates[n].items| && MissingIn(templates[n], checklist, i))
    ensures forall at: (nat, nat) :: MissingAt(templates, checklist, at) ==> at in before + OnTemplate(|templates| - 1, own)
  {
    hide MissingIn;
    var n := |templates| - 1;
    forall at: (nat, nat) | MissingAt(templates, checklist, at) ensures at in before + OnTemplate(n, own) {
      if at.0 < n {
        assert MissingAt(templates[..n], checklist, at);
      } else {
        var k :| 0 <= k < |own| && own[k] == at.1;
        assert OnTemplate(n, own)[k] == at;
      }
    }
  }

  lemma {:induction false} MissingCount(t: Template, checklist: seq<ChecklistEntry>, n: nat)
    requires n <= |t.items|
    ensures |MissingAmong(t, t.items[..n], checklist)| == |set i: nat | i < n && MissingIn(t, checklist, i)|
  {
    hide GetAnswer;
    hide ValidAnswer;
    hide MissingIn;
    if n > 0 {
      MissingCount(t, checklist, n - 1);
      assert t.items[..n][..n - 1] == t.items[..n - 1];
      MissingInIff(t, checklist, n - 1);
      CountOneMissing(t, checklist, n - 1);
    }
  }

  lemma CountOneMissing(t: Template, checklist: seq<ChecklistEntry>, n: nat)
    ensures |set i: nat | i < n + 1 && MissingIn(t, checklist, i)|
         == |set i: nat | i < n && MissingIn(t, checklist, i)| + if MissingIn(t, checklist, n) then 1 else 0
  {
    hide MissingIn;
    var some := set i: nat | i < n && MissingIn(t, checklist, i);
    assert (set i: nat | i < n + 1 && MissingIn(t, checklist, i)) == some + if MissingIn(t, checklist, n) then {n} else {};
  }

  lemma CountOneAnswered(t: Template, checklist: seq<ChecklistEntry>, n: nat)
    ensures |set i: nat | i < n + 1 && AnsweredIn(t, checklist, i)|
         == |set i: nat | i < n && AnsweredIn(t, checklist, i)| + if AnsweredIn(t, checklist, n) then 1 else 0
  {
    hide AnsweredIn;
    var some := set i: nat | i < n && AnsweredIn(t, checklist, i);
    assert (set i: nat | i < n + 1 && AnsweredIn(t, checklist, i)) == some + if AnsweredIn(t, checklist, n) then {n} else {};
  }

  lemma {:induction false} AnswersCounted(t: Template, checklist: seq<ChecklistEntry>, n: nat)
    requires n <= |t.items|
    ensures AnsweredCount(t, t.items[..n], checklist) == |set i: nat | i < n && AnsweredIn(t, checklist, i)|
  {
    hide Answered;
    hide AnsweredIn;
    if n > 0 {
      AnswersCounted(t, checklist, n - 1);
      assert t.items[..n][..n - 1] == t.items[..n - 1];
      MissingInIff(t, checklist, n - 1);
      CountOneAnswered(t, checklist, n - 1);
    }
  }

  function AnsweredCount(t: Template, items: seq<Item>, checklist: seq<ChecklistEntry>): nat {
    if items == [] then 0
    else AnsweredCount(t, items[..|items| - 1], checklist) + if Answered(t, items[|items| - 1], checklist) then 1 else 0
  }

  /** Progress of one template; what it counts as missing is what the missing list shows. */
  method ChecklistProgress(t: Template, checklist: seq<ChecklistEntry>) returns (answered: nat, total: nat, requiredMissing: nat)
    ensures total == |t.items| && answered == AnsweredCount(t, t.items, checklist)
    ensures requiredMissing == |MissingAmong(t, t.items, checklist)|
    ensures answered == |set i: nat | i < |t.items| && AnsweredIn(t, checklist, i)|
    ensures requiredMissing == |set i: nat | i < |t.items| && MissingIn(t, checklist, i)|
    ensures answered + requiredMissing <= total
  {
    answered, requiredMissing := 0, 0;
    var i := 0;
    while i < |t.items|
      invariant 0 <= i <= |t.items|
      invariant answered == AnsweredCount(t, t.items[..i], checklist)
      invariant requiredMissing == |MissingAmong(t, t.items[..i], checklist)|
      invariant answered + requiredMissing <= i
    {
      assert t.items[..i + 1][..i] == t.items[..i];
      if IsAnswered(t.items[i].itemType, GetAnswer(checklist, t.id, t.items[i].key)) {
        answered := answered + 1;
      } else if t.items[i].required {
        requiredMissing := requiredMissing + 1;
      }
      i := i + 1;
    }
    assert t.items[..i] == t.items;
    MissingCount(t, checklist, |t.items|);
    AnswersCounted(t, checklist, |t.items|);
    total := |t.items|;
  }

  function SumMissing(templates: seq<Template>, checklist: seq<ChecklistEntry>): nat {
    if templates == [] then 0
    else
      var t := templates[|templates| - 1];
      SumMissing(templates[..|templates| - 1], checklist) + |MissingAmong(t, t.items, checklist)|
  }

  /** The missing list is as long as the per-template counts add up to. */
  lemma {:induction false} CountsAgree(templates: seq<Template>, checklist: seq<ChecklistEntry>)
    ensures |MissingRequired(templates, checklist)| == SumMissing(templates, checklist)
  {
    if templates != [] {
      CountsAgree(templates[..|templates| - 1], checklist);
    }
  }

  ghost predicate DistinctKeys(items: seq<Item>) {
    forall i, j :: 0 <= i < j < |items| ==> items[i].key != items[j].key
  }

  ghost predicate DistinctTemplates(templates: seq<Template>) {
    && (forall i, j :: 0 <= i < j < |templates| ==> templates[i].id != templates[j].id)
    && (forall t :: t in templates ==> DistinctKeys(t.items))
  }

  predicate IsAbout(m: MissingItem, templateId: string, key: string) {
    m.templateId == templateId && m.key == key
  }

  function Without(ms: seq<MissingItem>, templateId: string, key: string): seq<MissingItem> {
    Filter(ms, (m: MissingItem) => !IsAbout(m, templateId, key))
  }

  lemma WithoutConcat(a: seq<MissingItem>, b: seq<MissingItem>, templateId: string, key: string)
    ensures Without(a + b, templateId, key) == Without(a, templateId, key) + Without(b, templateId, key)
  {
    FilterConcat(a, b, (m: MissingItem) => !IsAbout(m, templateId, key));
  }

  lemma WithoutOne(m: MissingItem, templateId: string, key: string)
    ensures Without([], templateId, key) == []
    ensures Without([m], templateId, key) == if IsAbout(m, templateId, key) then [] else [m]
  {
  }

  lemma AnswerOne(t: Template, item: Item, checklist: seq<ChecklistEntry>, u: Template, other: Item, value: Json)
    requires IsAnswered(item.itemType, Some(value))
    requires u.id == t.id && other.key == item.key ==> other.itemType == item.itemType
    ensures var after := SetAnswer(checklist, t.id, t.kind, item.key, Some(value));
            IsMissing(u, other, after) <==> IsMissing(u, other, checklist) && !IsAbout(Missing(u, other), t.id, item.key)
  {
    GetAfterSet(checklist, t.id, t.kind, item.key, Some(value), u.id, other.key);
  }

  lemma {:induction false} AnswerAmong(t: Template, item: Item, checklist: seq<ChecklistEntry>, u: Template, items: seq<Item>, value: Json)
    requires IsAnswered(item.itemType, Some(value))
    requires forall other :: other in items && u.id == t.id && other.key == item.key ==> other.itemType == item.itemType
    ensures MissingAmong(u, items, SetAnswer(checklist, t.id, t.kind, item.key, Some(value)))
         == Without(MissingAmong(u, items, checklist), t.id, item.key)
  {
    hide Without;
    hide IsMissing;
    hide SetAnswer;
    if items == [] {
      WithoutOne(Missing(t, item), t.id, item.key);
    } else {
      var init, last := items[..|items| - 1], items[|items| - 1];
      assert items == init + [last];
      AnswerAmong(t, item, checklist, u, init, value);
      AnswerOne(t, item, checklist, u, last, value);
      WithoutConcat(MissingAmong(u, init, checklist), [Missing(u, last)], t.id, item.key);
      WithoutOne(Missing(u, last), t.id, item.key);
      var after := SetAnswer(checklist, t.id, t.kind, item.key, Some(value));
      assert !IsMissing(u, last, checklist) ==> MissingAmong(u, items, checklist) == MissingAmong(u, init, checklist);
      assert !IsMissing(u, last, after) ==> MissingAmong(u, items, after) == MissingAmong(u, init, after);
    }
  }

  /** Setting an answer right strikes the item off every template's list and touches nothing else. */
  lemma {:induction false} AnswerTemplates(t: Template, item: Item, checklist: seq<ChecklistEntry>, templates: seq<Template>, value: Json)
    requires IsAnswered(item.itemType, Some(value))
    requires forall u, other :: u in templates && other in u.items && u.id == t.id && other.key == item.key
                                ==> other.itemType == item.itemType
    ensures MissingRequired(templates, SetAnswer(checklist, t.id, t.kind, item.key, Some(value)))
         == Without(MissingRequired(templates, checklist), t.id, item.key)
  {
    hide Without;
    hide MissingAmong;
    hide SetAnswer;
    if templates == [] {
      WithoutOne(Missing(t, item), t.id, item.key);
    } else {
      var init, u := templates[..|templates| - 1], templates[|templates| - 1];
      assert templates == init + [u];
      AnswerTemplates(t, item, checklist, init, value);
      AnswerAmong(t, item, checklist, u, u.items, value);
      WithoutConcat(MissingRequired(init, checklist), MissingAmong(u, u.items, checklist), t.id, item.key);
    }
  }

  /**
   * With distinct templates and item keys, a valid answer to an item removes
   * exactly that item from the missing list and keeps the rest in order.
   */
  lemma AnsweringRemovesExactly(templates: seq<Template>, checklist: seq<ChecklistEntry>, t: Template, item: Item, value: Json)
    requires DistinctTemplates(templates) && t in templates && item in t.items && ValidAnswer(item.itemType, Some(value))
    ensures MissingRequired(templates, SetAnswer(checklist, t.id, t.kind, item.key, Some(value)))
         == Without(MissingRequired(templates, checklist), t.id, item.key)
  {
    ValidAnswerIff(item.itemType, Some(value));
    forall u, other | u in templates && other in u.items && u.id == t.id && other.key == item.key
      ensures other.itemType == item.itemType
    {
      SameTemplate(templates, t, u);
      SameItem(t.items, item, other);
    }
    AnswerTemplates(t, item, checklist, templates, value);
  }

  lemma SameTemplate(templates: seq<Template>, t: Template, u: Template)
    requires DistinctTemplates(templates) && t in templates && u in templates && t.id == u.id
    ensures t == u
  {
    var i :| 0 <= i < |templates| && templates[i] == t;
    var j :| 0 <= j < |templates| && templates[j] == u;
  }

  lemma SameItem(items: seq<Item>, a: Item, b: Item)
    requires DistinctKeys(items) && a in items && b in items && a.key == b.key
    ensures a == b
  {
    var i :| 0 <= i < |items| && items[i] == a;
    var j :| 0 <= j < |items| && items[j] == b;
  }

  // ---------------------------------------------------------------- readings

  /** A number item of `t` with a finite answer in the checklist. */
  predicate HasReading(t: Template, item: Item, checklist: seq<ChecklistEntry>) {
    item.itemType.NumberItem? && Answered(t, item, checklist)
  }

  function ReadingsAmong(t: Template, items: seq<Item>, checklist: seq<ChecklistEntry>, before: map<string, Json>): map<string, Json> {
    if items == [] then before
    else
      var item, so := items[|items| - 1], ReadingsAmong(t, items[..|items| - 1], checklist, before);
      if HasReading(t, item, checklist) then so[item.key := GetAnswer(checklist, t.id, item.key).value] else so
  }

  function Readings(templates: seq<Template>, checklist: seq<ChecklistEntry>): map<string, Json> {
    if templates == [] then map[]
    else
      var t := templates[|templates| - 1];
      ReadingsAmong(t, t.items, checklist, Readings(templates[..|templates| - 1], checklist))
  }

  method BuildReadings(templates: seq<Template>, checklist: seq<ChecklistEntry>) returns (out: map<string, Json>)
    ensures out == Readings(templates, checklist)
  {
    out := map[];
    var n := 0;
    while n < |templates|
      invariant 0 <= n <= |templates|
      invariant out == Readings(templates[..n], checklist)
    {
      var t := templates[n];
      assert templates[..n + 1][..n] == templates[..n];
      var idx := EntryIndex(checklist, t.id);
      if idx < |checklist| {
        ghost var before := out;
        var i := 0;
        while i < |t.items|
          invariant 0 <= i <= |t.items|
          invariant out == ReadingsAmong(t, t.items[..i], checklist, before)
        {
          assert t.items[..i + 1][..i] == t.items[..i];
          if t.items[i].itemType.NumberItem? {
            var v := AnswerIn(checklist[idx], t.items[i].key);
            if v.Some? && v.value.JNum? {
              out := out[t.items[i].key := v.value];
            }
          }
          i := i + 1;
        }
        assert t.items[..i] == t.items;
      } else {
        NoEntryNoReadings(t, t.items, checklist, out);
      }
      n := n + 1;
    }
    assert templates[..n] == templates;
  }

  lemma {:induction false} NoEntryNoReadings(t: Template, items: seq<Item>, checklist: seq<ChecklistEntry>, before: map<string, Json>)
    requires EntryIndex(checklist, t.id) == |checklist|
    ensures ReadingsAmong(t, items, checklist, before) == before
  {
    if items != [] {
      NoEntryNoReadings(t, items[..|items| - 1], checklist, before);
    }
  }

  /** A number item of that key with a finite answer, somewhere among these. */
  ghost predicate ReadFrom(t: Template, items: seq<Item>, checklist: seq<ChecklistEntry>, key: string) {
    exists item :: item in items && item.key == key && item.itemType == NumberItem
                   && ValidAnswer(NumberItem, GetAnswer(checklist, t.id, key))
  }

  lemma {:induction false} ReadingsAmongExact(t: Template, items: seq<Item>, checklist: seq<ChecklistEntry>, before: map<string, Json>, key: string)
    ensures var r := ReadingsAmong(t, items, checklist, before);
            && (key in r <==> key in before || ReadFrom(t, items, checklist, key))
            && (ReadFrom(t, items, checklist, key) ==> Some(r[key]) == GetAnswer(checklist, t.id, key))
            && (key in before && !ReadFrom(t, items, checklist, key) ==> r[key] == before[key])
  {
    if items != [] {
      var init, last := items[..|items| - 1], items[|items| - 1];
      assert items == init + [last];
      ReadingsAmongExact(t, init, checklist, before, key);
      ValidAnswerIff(NumberItem, GetAnswer(checklist, t.id, last.key));
      if last.key == key && HasReading(t, last, checklist) {
        assert ReadFrom(t, items, checklist, key);
      }
    }
  }

  /** The last template with a reading of that key, if any. */
  ghost predicate LastReadFrom(templates: seq<Template>, i: nat, checklist: seq<ChecklistEntry>, key: string)
    requires i < |templates|
  {
    && ReadFrom(templates[i], templates[i].items, checklist, key)
    && forall j :: i < j < |templates| ==> !ReadFrom(templates[j], templates[j].items, checklist, key)
  }

  /**
   * A key is read exactly when some template's number item of that key has a
   * finite answer, and its value is the answer in the last such template.
   */
  lemma {:induction false} ReadingsExact(templates: seq<Template>, checklist: seq<ChecklistEntry>, key: string)
    ensures key in Readings(templates, checklist)
            <==> exists t :: t in templates && ReadFrom(t, t.items, checklist, key)
    ensures forall i :: 0 <= i < |templates| && LastReadFrom(templates, i, checklist, key)
              ==> key in Readings(templates, checklist)
                  && GetAnswer(checklist, templates[i].id, key) == Some(Readings(templates, checklist)[key])
    ensures key in Readings(templates, checklist)
            ==> exists i :: 0 <= i < |templates| && LastReadFrom(templates, i, checklist, key)
  {
    hide ReadFrom;
    hide ReadingsAmong;
    if templates != [] {
      var n := |templates| - 1;
      var init, t := templates[..n], templates[n];
      assert templates == init + [t];
      ReadingsExact(init, checklist, key);
      ReadingsAmongExact(t, t.items, checklist, Readings(init, checklist), key);
      if ReadFrom(t, t.items, checklist, key) {
        assert LastReadFrom(templates, n, checklist, key);
      } else {
        forall i | 0 <= i < n ensures LastReadFrom(templates, i, checklist, key) <==> LastReadFrom(init, i, checklist, key) {
          LastBeforeSilent(templates, i, checklist, key);
        }
      }
    }
  }

  /** A template without a reading at the end does not change which one is last. */
  lemma LastBeforeSilent(templates: seq<Template>, i: nat, checklist: seq<ChecklistEntry>, key: string)
    requires i < |templates| - 1
    requires !ReadFrom(templates[|templates| - 1], templates[|templates| - 1].items, checklist, key)
    ensures LastReadFrom(templates, i, checklist, key) <==> LastReadFrom(templates[..|templates| - 1], i, checklist, key)
  {
    hide ReadFrom;
    var n := |templates| - 1;
    assert forall j :: 0 <= j < n ==> templates[..n][j] == templates[j];
  }
}
