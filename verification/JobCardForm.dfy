/**
 * The job-card form and its wire form. Free-text symptom notes travel inside
 * the list of symptoms, one prefixed line each; recommended parts are read
 * leniently from whatever the server stored.
 */
module JobCardForm {
  import opened Basics
  import opened Text
  import opened JobCards
  import opened Checklist

  const SYMPTOM_NOTE_PREFIX := "Note: "

  datatype RecommendedPart = RecommendedPart(
    name: string,
    quantity: real,
    itemId: Option<string>,
    sku: Option<string>,
    inVan: Option<bool>)

  datatype Form = Form(
    symptoms: seq<string>,
    symptomNotes: string,
    faultCodes: seq<string>,
    diagnosis: string,
    rootCause: string,
    resolution: string,
    checklist: seq<ChecklistEntry>,
    partsRecommended: seq<RecommendedPart>,
    photos: seq<string>,
    firstTimeFix: Option<bool>,
    technicianRemarks: string)

  const EMPTY_FORM := Form([], "", [], "", "", "", [], [], [], None, "")

  datatype JobCard = JobCard(
    symptoms: seq<string>,
    faultCodes: seq<string>,
    diagnosis: Option<string>,
    rootCause: Option<string>,
    resolution: Option<string>,
    readings: map<string, Json>,
    checklist: seq<ChecklistEntry>,
    partsRecommended: seq<Json>,
    photos: seq<string>,
    firstTimeFix: Option<bool>,
    technicianRemarks: Option<string>,
    customerRemarks: Option<string>)

  /** The full patch a form is saved as. */
  datatype FormPatch = FormPatch(
    symptoms: seq<string>,
    faultCodes: seq<string>,
    diagnosis: Option<string>,
    rootCause: Option<string>,
    resolution: Option<string>,
    readings: map<string, Json>,
    checklist: seq<ChecklistEntry>,
    partsRecommended: seq<RecommendedPart>,
    photos: seq<string>,
    firstTimeFix: Option<bool>,
    technicianRemarks: Option<string>)

  // ---------------------------------------------------------------- recommended parts

  function StringMember(m: map<string, Json>, key: string): Option<string> {
    if key in m && m[key].JStr? then Some(m[key].s) else None
  }

  function AsRecommendedPart(raw: Json): Option<RecommendedPart> {
    if !raw.JObj? then None
    else
      var m := raw.members;
      var sku := StringMember(m, "sku");
      var name := if StringMember(m, "name").Some? then StringMember(m, "name") else sku;
      if name.None? || name.value == "" then None
      else
        Some(RecommendedPart(
          name.value,
          if "quantity" in m && m["quantity"].JNum? && m["quantity"].n > 0.0 then m["quantity"].n.Floor as real else 1.0,
          StringMember(m, "itemId"),
          sku,
          if "inVan" in m && m["inVan"].JBool? then Some(m["inVan"].b) else None))
  }

  /** A part goes by its name, or by its stock number if the name is no text. */
  ghost predicate GoesBy(m: map<string, Json>, name: string) {
    if "name" in m && m["name"].JStr? then m["name"] == JStr(name) else "sku" in m && m["sku"] == JStr(name)
  }

  ghost predicate IsMember(m: map<string, Json>, key: string, value: Option<string>) {
    match value
    case None => key in m ==> !m[key].JStr?
    case Some(s) => key in m && m[key] == JStr(s)
  }

  /** A positive quantity is read as its whole units, anything else as one. */
  ghost predicate ReadQuantity(m: map<string, Json>, quantity: real) {
    if "quantity" in m && m["quantity"].JNum? && m["quantity"].n > 0.0
    then quantity <= m["quantity"].n < quantity + 1.0 && quantity.Floor as real == quantity
    else quantity == 1.0
  }

  /** Which values are read as parts, and as which. */
  lemma PartIs(raw: Json)
    ensures AsRecommendedPart(raw).Some? <==> raw.JObj? && exists name :: name != "" && GoesBy(raw.members, name)
    ensures AsRecommendedPart(raw).Some? ==>
              var p, m := AsRecommendedPart(raw).value, raw.members;
              && GoesBy(m, p.name) && ReadQuantity(m, p.quantity)
              && IsMember(m, "itemId", p.itemId) && IsMember(m, "sku", p.sku)
              && (p.inVan.Some? <==> "inVan" in m && m["inVan"].JBool?)
              && (p.inVan.Some? ==> m["inVan"] == JBool(p.inVan.value))
  {
    if AsRecommendedPart(raw).Some? {
      assert GoesBy(raw.members, AsRecommendedPart(raw).value.name);
    }
  }

  /** How a part stands in a JSON body: absent members are left out. */
  function PartJson(p: RecommendedPart): Json {
    JObj(map["name" := JStr(p.name), "quantity" := JNum(p.quantity)]
         + (if p.itemId.Some? then map["itemId" := JStr(p.itemId.value)] else map[])
         + (if p.sku.Some? then map["sku" := JStr(p.sku.value)] else map[])
         + (if p.inVan.Some? then map["inVan" := JBool(p.inVan.value)] else map[]))
  }

  predicate WellFormedPart(p: RecommendedPart) {
    p.name != "" && p.quantity >= 1.0 && p.quantity.Floor as real == p.quantity
  }

  lemma PartReadBack(p: RecommendedPart)
    ensures AsRecommendedPart(PartJson(p)) ==
            if p.name == "" then None
            else Some(p.(quantity := if p.quantity > 0.0 then p.quantity.Floor as real else 1.0))
  {
    var m := PartJson(p).members;
    assert "name" in m && m["name"] == JStr(p.name);
    assert "quantity" in m && m["quantity"] == JNum(p.quantity);
    assert StringMember(m, "itemId") == p.itemId;
    assert StringMember(m, "sku") == p.sku;
  }

  /** A part survives the wire exactly when it has a name and a whole positive quantity. */
  lemma PartRoundTripIff(p: RecommendedPart)
    ensures AsRecommendedPart(PartJson(p)) == Some(p) <==> WellFormedPart(p)
  {
    PartReadBack(p);
  }

  function LoadParts(raws: seq<Json>): seq<RecommendedPart> {
    if raws == [] then []
    else
      var p := AsRecommendedPart(raws[|raws| - 1]);
      LoadParts(raws[..|raws| - 1]) + if p.Some? then [p.value] else []
  }

  function PartsJson(parts: seq<RecommendedPart>): seq<Json> {
    seq(|parts|, i requires 0 <= i < |parts| => PartJson(parts[i]))
  }

  /** The raw parts that load with quantity 0: a positive quantity below one is floored. */
  predicate FloorsToZero(raw: Json) {
    AsRecommendedPart(raw).Some? && "quantity" in raw.members && raw.members["quantity"].JNum?
    && 0.0 < raw.members["quantity"].n < 1.0
  }

  lemma {:induction false} LoadedParts(raws: seq<Json>)
    ensures forall p :: p in LoadParts(raws) ==> p.name != "" && p.quantity >= 0.0 && p.quantity.Floor as real == p.quantity
    ensures (forall p :: p in LoadParts(raws) ==> WellFormedPart(p)) <==> (forall raw :: raw in raws ==> !FloorsToZero(raw))
  {
    if raws != [] {
      var init, last := raws[..|raws| - 1], raws[|raws| - 1];
      assert raws == init + [last];
      LoadedParts(init);
      if AsRecommendedPart(last).Some? {
        LoadedPart(last);
      }
    }
  }

  lemma LoadedPart(raw: Json)
    requires AsRecommendedPart(raw).Some?
    ensures var p := AsRecommendedPart(raw).value;
            && p.name != "" && p.quantity >= 0.0 && p.quantity.Floor as real == p.quantity
            && (WellFormedPart(p) <==> !FloorsToZero(raw))
  {
  }

  lemma {:induction false} PartsReadBack(parts: seq<RecommendedPart>)
    requires forall p :: p in parts ==> WellFormedPart(p)
    ensures LoadParts(PartsJson(parts)) == parts
  {
    hide AsRecommendedPart;
    hide PartJson;
    hide WellFormedPart;
    if parts != [] {
      var n := |parts| - 1;
      assert parts == parts[..n] + [parts[n]];
      PartsReadBack(parts[..n]);
      PartRoundTripIff(parts[n]);
      assert PartsJson(parts)[..n] == PartsJson(parts[..n]);
    }
  }

  // ---------------------------------------------------------------- symptom notes

  predicate IsNote(s: string) {
    SYMPTOM_NOTE_PREFIX <= s
  }

  function Chips(symptoms: seq<string>): seq<string> {
    Filter(symptoms, (s: string) => !IsNote(s))
  }

  /** The notes among the symptoms, without their prefix. */
  function NoteTexts(symptoms: seq<string>): seq<string> {
    if symptoms == [] then []
    else
      var s := symptoms[|symptoms| - 1];
      NoteTexts(symptoms[..|symptoms| - 1]) + if IsNote(s) then [s[|SYMPTOM_NOTE_PREFIX|..]] else []
  }

  /** Trimmed, blank ones dropped. */
  function Tidied(lines: seq<string>): seq<string> {
    if lines == [] then []
    else
      var l := Trim(lines[|lines| - 1]);
      Tidied(lines[..|lines| - 1]) + if l != "" then [l] else []
  }

  function NoteLines(notes: string): seq<string> {
    Tidied(SplitLines(notes))
  }

  function Prefixed(lines: seq<string>): seq<string> {
    seq(|lines|, i requires 0 <= i < |lines| => SYMPTOM_NOTE_PREFIX + lines[i])
  }

  ghost predicate CleanChips(symptoms: seq<string>) {
    forall s :: s in symptoms ==> !IsNote(s)
  }

  lemma {:induction false} ChipsOfClean(chips: seq<string>)
    requires CleanChips(chips)
    ensures Chips(chips) == chips && NoteTexts(chips) == []
  {
    if chips != [] {
      assert chips == chips[..|chips| - 1] + [chips[|chips| - 1]];
      ChipsOfClean(chips[..|chips| - 1]);
    }
  }

  /** Reading back chips followed by prefixed notes separates the two again. */
  lemma {:induction false} SymptomsReadBack(chips: seq<string>, lines: seq<string>)
    requires CleanChips(chips)
    ensures Chips(chips + Prefixed(lines)) == chips
    ensures NoteTexts(chips + Prefixed(lines)) == lines
  {
    var all := chips + Prefixed(lines);
    if lines == [] {
      assert all == chips;
      ChipsOfClean(chips);
    } else {
      var n := |lines| - 1;
      assert all[..|all| - 1] == chips + Prefixed(lines[..n]);
      SymptomsReadBack(chips, lines[..n]);
      var last := all[|all| - 1];
      assert IsNote(last) && last[|SYMPTOM_NOTE_PREFIX|..] == lines[n];
      assert lines == lines[..n] + [lines[n]];
    }
  }

  /** Lines as the form sends them: trimmed, not blank, without a line break. */
  ghost predicate TidyLines(lines: seq<string>) {
    forall l :: l in lines ==> l != "" && Trim(l) == l && OneLine(l)
  }

  lemma {:induction false} TidiedIsTidy(lines: seq<string>)
    requires forall l :: l in lines ==> OneLine(l)
    ensures TidyLines(Tidied(lines))
  {
    if lines != [] {
      var last := lines[|lines| - 1];
      assert last in lines;
      TidiedIsTidy(lines[..|lines| - 1]);
      TrimTwice(last);
      TrimIsTrimmed(last);
    }
  }

  lemma {:induction false} TidyStays(lines: seq<string>)
    requires TidyLines(lines)
    ensures Tidied(lines) == lines
  {
    if lines != [] {
      var init, last := lines[..|lines| - 1], lines[|lines| - 1];
      assert lines == init + [last];
      forall l | l in init ensures l in lines {
      }
      assert last in lines;
      TidyStays(init);
    }
  }

  /** Notes joined from sent lines are split into the same lines again. */
  lemma NotesReadBack(lines: seq<string>)
    requires TidyLines(lines)
    ensures NoteLines(JoinLines(lines)) == lines
  {
    if lines == [] {
      assert SplitLines("") == [""];
      assert Trim("") == "";
      assert Tidied([""]) == [] by { assert [""][..0] == []; }
    } else {
      SplitJoin(lines);
      TidyStays(lines);
    }
  }

  lemma SentNotesAreTidy(notes: string)
    ensures TidyLines(NoteLines(notes))
  {
    SplitIsLines(notes);
    TidiedIsTidy(SplitLines(notes));
  }

  // ---------------------------------------------------------------- form and wire

  function NullIfBlank(s: string): Option<string> {
    if Trim(s) != "" then Some(Trim(s)) else None
  }

  function FormFromJobCard(jc: Option<JobCard>): Form {
    match jc
    case None => EMPTY_FORM
    case Some(c) =>
      Form(Chips(c.symptoms), JoinLines(NoteTexts(c.symptoms)), c.faultCodes,
           c.diagnosis.GetOr(""), c.rootCause.GetOr(""), c.resolution.GetOr(""),
           c.checklist, LoadParts(c.partsRecommended), c.photos, c.firstTimeFix, c.technicianRemarks.GetOr(""))
  }

  function FormToPatch(form: Form, templates: seq<Template>): FormPatch {
    FormPatch(form.symptoms + Prefixed(NoteLines(form.symptomNotes)), form.faultCodes,
              NullIfBlank(form.diagnosis), NullIfBlank(form.rootCause), NullIfBlank(form.resolution),
              Readings(templates, form.checklist), form.checklist, form.partsRecommended,
              form.photos, form.firstTimeFix, NullIfBlank(form.technicianRemarks))
  }

  /**
   * A full patch saved over a stored card: readings and answers are merged into
   * those stored and the other known fields are replaced. Whether the first
   * visit fixed it is not among them; only completing the card sets that.
   */
  function Saved(stored: JobCard, p: FormPatch): JobCard {
    JobCard(p.symptoms, p.faultCodes, p.diagnosis, p.rootCause, p.resolution,
            stored.readings + p.readings, MergeEntries(stored.checklist, p.checklist),
            PartsJson(p.partsRecommended), p.photos, stored.firstTimeFix, p.technicianRemarks, stored.customerRemarks)
  }

  /** Saved, loaded and turned into a patch again. */
  function Resaved(stored: JobCard, p: FormPatch, templates: seq<Template>): FormPatch {
    FormToPatch(FormFromJobCard(Some(Saved(stored, p))), templates)
  }

  /**
   * A text field is sent as nothing if it is blank, and else as the text with
   * some white space taken from its ends, so that it starts and ends with a
   * printing character.
   */
  ghost predicate SentText(text: string, sent: Option<string>) {
    match sent
    case None => Blank(text)
    case Some(t) => t != "" && !IsSpace(t[0]) && !IsSpace(t[|t| - 1]) && Surrounded(text, t)
  }

  lemma SentTextIs(text: string)
    ensures SentText(text, NullIfBlank(text))
  {
    hide Trim;
    TrimEmptyIff(text);
    TrimIsTrimmed(text);
    TrimSurrounds(text);
  }

  /** What a form is sent as, field by field. */
  lemma SentFields(form: Form, templates: seq<Template>)
    ensures var p := FormToPatch(form, templates);
            && SentText(form.diagnosis, p.diagnosis) && SentText(form.rootCause, p.rootCause)
            && SentText(form.resolution, p.resolution) && SentText(form.technicianRemarks, p.technicianRemarks)
            && p.faultCodes == form.faultCodes && p.photos == form.photos && p.firstTimeFix == form.firstTimeFix
            && p.checklist == form.checklist && p.partsRecommended == form.partsRecommended
            && p.readings == Readings(templates, form.checklist)
    ensures CleanChips(form.symptoms) ==>
              var p := FormToPatch(form, templates);
              Chips(p.symptoms) == form.symptoms && NoteTexts(p.symptoms) == NoteLines(form.symptomNotes)
  {
    hide SentText;
    hide NullIfBlank;
    hide NoteLines;
    hide Prefixed;
    hide Readings;
    SentTextIs(form.diagnosis);
    SentTextIs(form.rootCause);
    SentTextIs(form.resolution);
    SentTextIs(form.technicianRemarks);
    if CleanChips(form.symptoms) {
      SymptomsReadBack(form.symptoms, NoteLines(form.symptomNotes));
    }
  }

  /** What is read off a saved card: the texts, photos and codes sent, and the notes line by line; off no card nothing. */
  lemma LoadedFields(stored: JobCard, form: Form, templates: seq<Template>)
    requires CleanChips(form.symptoms)
    ensures var p := FormToPatch(form, templates);
            var shown := FormFromJobCard(Some(Saved(stored, p)));
            && shown.diagnosis == p.diagnosis.GetOr("") && shown.rootCause == p.rootCause.GetOr("")
            && shown.resolution == p.resolution.GetOr("") && shown.technicianRemarks == p.technicianRemarks.GetOr("")
            && shown.faultCodes == form.faultCodes && shown.photos == form.photos
            && shown.symptoms == form.symptoms && NoteLines(shown.symptomNotes) == NoteLines(form.symptomNotes)
            && shown.firstTimeFix == stored.firstTimeFix
            && shown.checklist == MergeEntries(stored.checklist, form.checklist)
    ensures var none := FormFromJobCard(None);
            && none.diagnosis == none.rootCause == none.resolution == none.technicianRemarks == none.symptomNotes == ""
            && none.symptoms == none.faultCodes == none.photos == [] && none.checklist == [] && none.partsRecommended == []
            && none.firstTimeFix == None
  {
    hide NullIfBlank;
    hide NoteLines;
    hide Prefixed;
    hide Readings;
    hide LoadParts;
    hide MergeEntries;
    SymptomsReadBack(form.symptoms, NoteLines(form.symptomNotes));
    SentNotesAreTidy(form.symptomNotes);
    NotesReadBack(NoteLines(form.symptomNotes));
  }

  lemma NullIfBlankStable(s: string)
    ensures NullIfBlank(NullIfBlank(s).GetOr("")) == NullIfBlank(s)
  {
    TrimTwice(s);
    assert Trim("") == "";
  }

  /** Resaving reloads the parts, takes the merged checklist, and leaves `firstTimeFix` as stored. */
  lemma ResavedPatch(stored: JobCard, form: Form, templates: seq<Template>)
    requires CleanChips(form.symptoms)
    ensures var p, merged := FormToPatch(form, templates), MergeEntries(stored.checklist, form.checklist);
            Resaved(stored, p, templates)
            == p.(partsRecommended := LoadParts(PartsJson(form.partsRecommended)),
                  checklist := merged, readings := Readings(templates, merged), firstTimeFix := stored.firstTimeFix)
  {
    hide NullIfBlank;
    hide Chips;
    hide NoteTexts;
    hide NoteLines;
    hide Prefixed;
    hide LoadParts;
    hide Readings;
    hide MergeEntries;
    var lines := NoteLines(form.symptomNotes);
    SymptomsReadBack(form.symptoms, lines);
    SentNotesAreTidy(form.symptomNotes);
    NotesReadBack(lines);
    NullIfBlankStable(form.diagnosis);
    NullIfBlankStable(form.rootCause);
    NullIfBlankStable(form.resolution);
    NullIfBlankStable(form.technicianRemarks);
  }

  /**
   * Saving a form over a stored card, loading it and saving again sends the
   * same patch, for every form whose chips lack the note prefix and whose
   * parts are well formed, exactly when its checklist has one entry per
   * template and carries on the stored one, so that no stored answer is
   * missing, and it does not change whether the first visit fixed it.
   */
  lemma FormFixedPointIff(stored: JobCard, form: Form, templates: seq<Template>)
    requires CleanChips(form.symptoms) && forall p :: p in form.partsRecommended ==> WellFormedPart(p)
    requires DistinctEntries(stored.checklist)
    ensures var p := FormToPatch(form, templates);
            Resaved(stored, p, templates) == p
            <==> && DistinctEntries(form.checklist) && CarriesOn(stored.checklist, form.checklist)
                 && form.firstTimeFix == stored.firstTimeFix
  {
    hide DistinctEntries;
    hide CarriesOn;
    hide MergeEntries;
    ResavedPatch(stored, form, templates);
    PartsReadBack(form.partsRecommended);
    ChecklistComesBackIff(stored.checklist, form.checklist);
    PatchParts(form, templates);
  }

  lemma LoadedFormIsClean(jc: Option<JobCard>)
    ensures CleanChips(FormFromJobCard(jc).symptoms)
  {
  }

  /**
   * A loaded form always has clean chips; its parts are well formed exactly
   * when no stored part has a quantity strictly between zero and one.
   */
  lemma LoadedFormIff(jc: JobCard)
    ensures var form := FormFromJobCard(Some(jc));
            && CleanChips(form.symptoms)
            && ((forall p :: p in form.partsRecommended ==> WellFormedPart(p))
                <==> (forall raw :: raw in jc.partsRecommended ==> !FloorsToZero(raw)))
  {
    LoadedFormIsClean(Some(jc));
    LoadedParts(jc.partsRecommended);
  }

  /** A named part after one trip over the wire. */
  function Mended(p: RecommendedPart): RecommendedPart {
    p.(quantity := if p.quantity > 0.0 then p.quantity.Floor as real else 1.0)
  }

  function MendedAll(parts: seq<RecommendedPart>): seq<RecommendedPart> {
    seq(|parts|, i requires 0 <= i < |parts| => Mended(parts[i]))
  }

  lemma {:induction false} ReloadedParts(parts: seq<RecommendedPart>)
    requires forall p :: p in parts ==> p.name != ""
    ensures LoadParts(PartsJson(parts)) == MendedAll(parts)
  {
    hide PartJson;
    hide AsRecommendedPart;
    hide Mended;
    if parts != [] {
      var n := |parts| - 1;
      assert parts == parts[..n] + [parts[n]];
      ReloadedParts(parts[..n]);
      assert PartsJson(parts)[..n] == PartsJson(parts[..n]);
      NamedPartReadBack(parts[n]);
    }
  }

  lemma NamedPartReadBack(p: RecommendedPart)
    requires p.name != ""
    ensures AsRecommendedPart(PartJson(p)) == Some(Mended(p))
  {
    PartReadBack(p);
  }

  lemma ReloadingMends(parts: seq<RecommendedPart>)
    requires forall p :: p in parts ==> p.name != "" && p.quantity >= 0.0 && p.quantity.Floor as real == p.quantity
    ensures forall p :: p in LoadParts(PartsJson(parts)) ==> WellFormedPart(p)
    ensures LoadParts(PartsJson(parts)) == parts <==> forall p :: p in parts ==> WellFormedPart(p)
  {
    hide Mended;
    hide LoadParts;
    hide WellFormedPart;
    ReloadedParts(parts);
    forall p | p in parts ensures WellFormedPart(Mended(p)) && (Mended(p) == p <==> WellFormedPart(p)) {
      MendedIsWellFormed(p);
    }
    var mended := MendedAll(parts);
    forall i | 0 <= i < |parts| ensures WellFormedPart(mended[i]) {
      assert parts[i] in parts;
    }
    if mended == parts {
      forall i | 0 <= i < |parts| ensures WellFormedPart(parts[i]) {
        assert mended[i] == parts[i];
      }
    }
    if forall p :: p in parts ==> WellFormedPart(p) {
      forall i | 0 <= i < |parts| ensures mended[i] == parts[i] {
        assert parts[i] in parts;
      }
    }
  }

  lemma MendedIsWellFormed(p: RecommendedPart)
    requires p.name != "" && p.quantity >= 0.0 && p.quantity.Floor as real == p.quantity
    ensures WellFormedPart(Mended(p)) && (Mended(p) == p <==> WellFormedPart(p))
  {
  }

  /**
   * Load and save cycles settle: the second save already repeats the first
   * exactly when no stored part has a quantity strictly between zero and one,
   * and the third always repeats the second.
   */
  lemma SaveCyclesSettle(jc: JobCard, templates: seq<Template>)
    requires DistinctEntries(jc.checklist)
    ensures var first := FormToPatch(FormFromJobCard(Some(jc)), templates);
            var second := Resaved(jc, first, templates);
            && (second == first <==> forall raw :: raw in jc.partsRecommended ==> !FloorsToZero(raw))
            && Resaved(Saved(jc, first), second, templates) == second
  {
    hide FormToPatch;
    hide FloorsToZero;
    hide MergeEntries;
    hide DistinctEntries;
    var form := FormFromJobCard(Some(jc));
    LoadedFormIff(jc);
    LoadedParts(jc.partsRecommended);
    ResavedPatch(jc, form, templates);
    ReloadingMends(form.partsRecommended);
    PatchParts(form, templates);
    SameAgain(jc.checklist);
    var saved := Saved(jc, FormToPatch(form, templates));
    var again := FormFromJobCard(Some(saved));
    LoadedFormIsClean(Some(saved));
    FormFixedPointIff(saved, again, templates);
  }

  /** A checklist saved over itself stays as it is. */
  lemma SameAgain(checklist: seq<ChecklistEntry>)
    requires DistinctEntries(checklist)
    ensures MergeEntries(checklist, checklist) == checklist && CarriesOn(checklist, checklist)
  {
    hide MergeEntries;
    ChecklistComesBackIff(checklist, checklist);
  }

  lemma PatchParts(form: Form, templates: seq<Template>)
    ensures var p := FormToPatch(form, templates);
            && p.partsRecommended == form.partsRecommended && p.checklist == form.checklist
            && p.readings == Readings(templates, form.checklist) && p.firstTimeFix == form.firstTimeFix
  {
  }

  /** A stored part of quantity one half: the first save sends 0, the second sends 1. */
  lemma HalfAPartDrifts()
    ensures var raw := JObj(map["name" := JStr("Capacitor"), "quantity" := JNum(0.5)]);
            && AsRecommendedPart(raw) == Some(RecommendedPart("Capacitor", 0.0, None, None, None))
            && AsRecommendedPart(PartJson(AsRecommendedPart(raw).value)) == Some(RecommendedPart("Capacitor", 1.0, None, None, None))
  {
    PartReadBack(RecommendedPart("Capacitor", 0.0, None, None, None));
  }

  // ---------------------------------------------------------------- forms and the offline queue

  function Strings(xs: seq<string>): Json {
    JArr(seq(|xs|, i requires 0 <= i < |xs| => JStr(xs[i])))
  }

  function Nullable(s: Option<string>): Json {
    if s.Some? then JStr(s.value) else JNull
  }

  /** The patch as the queue and the server see it. */
  function QueuedPatch(p: FormPatch): Patch {
    Patch(
      map["symptoms" := Strings(p.symptoms), "faultCodes" := Strings(p.faultCodes),
          "diagnosis" := Nullable(p.diagnosis), "rootCause" := Nullable(p.rootCause), "resolution" := Nullable(p.resolution),
          "partsRecommended" := JArr(PartsJson(p.partsRecommended)), "photos" := Strings(p.photos),
          "firstTimeFix" := if p.firstTimeFix.Some? then JBool(p.firstTimeFix.value) else JNull,
          "technicianRemarks" := Nullable(p.technicianRemarks)],
      Some(p.readings),
      Some(p.checklist))
  }

  /** A stored card as a patch that would write all of it. */
  function WholeCard(jc: JobCard): Patch {
    Patch(
      map["symptoms" := Strings(jc.symptoms), "faultCodes" := Strings(jc.faultCodes),
          "diagnosis" := Nullable(jc.diagnosis), "rootCause" := Nullable(jc.rootCause), "resolution" := Nullable(jc.resolution),
          "partsRecommended" := JArr(jc.partsRecommended), "photos" := Strings(jc.photos),
          "firstTimeFix" := if jc.firstTimeFix.Some? then JBool(jc.firstTimeFix.value) else JNull,
          "technicianRemarks" := Nullable(jc.technicianRemarks), "customerRemarks" := Nullable(jc.customerRemarks)],
      Some(jc.readings),
      Some(jc.checklist))
  }

  ghost predicate IsText(j: Json, s: Option<string>) {
    match s
    case None => j == JNull
    case Some(t) => j == JStr(t)
  }

  ghost predicate IsTexts(j: Json, xs: seq<string>) {
    j.JArr? && |j.items| == |xs| && forall i :: 0 <= i < |xs| ==> j.items[i] == JStr(xs[i])
  }

  /** The plain fields two descriptions of a card share: texts or null, lists of texts. */
  ghost predicate PlainFields(fields: map<string, Json>, symptoms: seq<string>, faultCodes: seq<string>, photos: seq<string>,
                              diagnosis: Option<string>, rootCause: Option<string>, resolution: Option<string>,
                              technicianRemarks: Option<string>, firstTimeFix: Option<bool>)
    requires {"symptoms", "faultCodes", "photos", "diagnosis", "rootCause", "resolution", "technicianRemarks", "firstTimeFix"} <= fields.Keys
  {
    && IsTexts(fields["symptoms"], symptoms) && IsTexts(fields["faultCodes"], faultCodes) && IsTexts(fields["photos"], photos)
    && IsText(fields["diagnosis"], diagnosis) && IsText(fields["rootCause"], rootCause)
    && IsText(fields["resolution"], resolution) && IsText(fields["technicianRemarks"], technicianRemarks)
    && fields["firstTimeFix"] == match firstTimeFix case None => JNull case Some(b) => JBool(b)
  }

  /** What a full patch says to the server, field by field. */
  lemma QueuedFields(p: FormPatch)
    ensures var q := QueuedPatch(p);
            && q.fields.Keys == {"symptoms", "faultCodes", "diagnosis", "rootCause", "resolution",
                                 "partsRecommended", "photos", "firstTimeFix", "technicianRemarks"}
            && PlainFields(q.fields, p.symptoms, p.faultCodes, p.photos, p.diagnosis, p.rootCause, p.resolution,
                           p.technicianRemarks, p.firstTimeFix)
            && q.fields["partsRecommended"] == JArr(PartsJson(p.partsRecommended))
            && q.readings == Some(p.readings) && q.checklist == Some(p.checklist)
  {
    hide PartsJson;
  }

  lemma StoredFields(jc: JobCard)
    ensures var w := WholeCard(jc);
            && w.fields.Keys == {"symptoms", "faultCodes", "diagnosis", "rootCause", "resolution", "partsRecommended", "photos",
                                 "firstTimeFix", "technicianRemarks", "customerRemarks"}
            && PlainFields(w.fields, jc.symptoms, jc.faultCodes, jc.photos, jc.diagnosis, jc.rootCause, jc.resolution,
                           jc.technicianRemarks, jc.firstTimeFix)
            && w.fields["partsRecommended"] == JArr(jc.partsRecommended) && IsText(w.fields["customerRemarks"], jc.customerRemarks)
            && w.readings == Some(jc.readings) && w.checklist == Some(jc.checklist)
  {
  }

  /** The known part of a full patch leaves out one field only. */
  lemma KnownFields(p: FormPatch)
    ensures var q := QueuedPatch(p);
            Known(q) == q.(fields := q.fields - {"firstTimeFix"})
  {
    hide PartsJson;
    hide Strings;
    hide Nullable;
    var q := QueuedPatch(p);
    forall f ensures f in q.fields && f in UPSERT_FIELDS <==> f in q.fields && f != "firstTimeFix" {
    }
    assert Known(q).fields == q.fields - {"firstTimeFix"};
  }

  lemma SavedFields(stored: JobCard, p: FormPatch)
    ensures WholeCard(Saved(stored, p)).fields
         == WholeCard(stored).fields + (QueuedPatch(p).fields - {"firstTimeFix"})
  {
    hide PartsJson;
    hide Strings;
    hide Nullable;
    hide MergeEntries;
    var saved, sum := WholeCard(Saved(stored, p)).fields, WholeCard(stored).fields + (QueuedPatch(p).fields - {"firstTimeFix"});
    assert saved.Keys == sum.Keys;
    forall f | f in saved ensures saved[f] == sum[f] {
    }
  }

  lemma SavedAt(stored: JobCard, p: FormPatch, x: Cell)
    requires DistinctEntries(stored.checklist)
    ensures WrittenAt(WholeCard(Saved(stored, p)), x)
         == if WrittenAt(Known(QueuedPatch(p)), x).Some? then WrittenAt(Known(QueuedPatch(p)), x)
            else WrittenAt(WholeCard(stored), x)
  {
    hide Known;
    hide ChecklistCells;
    hide QueuedPatch;
    hide WholeCard;
    hide Saved;
    SavedNested(stored, p);
    SavedFields(stored, p);
    KnownFields(p);
    MergeIsOverride(stored.checklist, p.checklist);
  }

  lemma SavedNested(stored: JobCard, p: FormPatch)
    ensures var w := WholeCard(Saved(stored, p));
            && w.readings == Some(stored.readings + p.readings)
            && w.checklist == Some(MergeEntries(stored.checklist, p.checklist))
            && WholeCard(stored).readings == Some(stored.readings) && WholeCard(stored).checklist == Some(stored.checklist)
            && QueuedPatch(p).readings == Some(p.readings) && QueuedPatch(p).checklist == Some(p.checklist)
  {
    hide MergeEntries;
  }

  /**
   * Saving a form, field by field on the server, is overriding the cells of
   * the stored card by those of the known part of its patch.
   */
  lemma SaveIsApply(stored: JobCard, p: FormPatch)
    requires DistinctEntries(stored.checklist)
    ensures Effect(WholeCard(Saved(stored, p))) == Apply(Effect(WholeCard(stored)), Known(QueuedPatch(p)))
  {
    hide Effect;
    hide WholeCard;
    hide QueuedPatch;
    hide Saved;
    hide WrittenAt;
    hide Known;
    var after, sum := Effect(WholeCard(Saved(stored, p))), Effect(WholeCard(stored)) + Effect(Known(QueuedPatch(p)));
    forall x ensures At(after, x) == At(sum, x) {
      SavedAt(stored, p, x);
      EffectAt(WholeCard(Saved(stored, p)), x);
      EffectAt(Known(QueuedPatch(p)), x);
      EffectAt(WholeCard(stored), x);
      AtOverride(Effect(WholeCard(stored)), Effect(Known(QueuedPatch(p))), x);
    }
    SameCells(after, sum);
  }

  lemma {:induction false} CellsOfEntries(entries: seq<ChecklistEntry>, x: Cell)
    ensures x in ChecklistCells(entries) <==> exists e :: e in entries && x in EntryCells(e)
  {
    if entries != [] {
      var n := |entries| - 1;
      assert entries == entries[..n] + [entries[n]];
      CellsOfEntries(entries[..n], x);
    }
  }

  lemma WithAnswerKeeps(e: ChecklistEntry, key: string, value: Json, x: Cell)
    requires x in EntryCells(e)
    ensures x in EntryCells(WithAnswer(e, key, Some(value)))
  {
  }

  /** Where an entry is after an answer was set: in place, or the one changed. */
  lemma SetMember(checklist: seq<ChecklistEntry>, t: Template, key: string, value: Json, e: ChecklistEntry)
    requires e in checklist
    ensures var after := SetAnswer(checklist, t.id, t.kind, key, Some(value));
            e in after || WithAnswer(e, key, Some(value)) in after
  {
    hide WithAnswer;
    var after, idx := SetAnswer(checklist, t.id, t.kind, key, Some(value)), EntryIndex(checklist, t.id);
    var i :| 0 <= i < |checklist| && checklist[i] == e;
    assert i != idx ==> after[i] == e;
    if i == idx {
      assert after[idx] == WithAnswer(e, key, Some(value));
    }
  }

  /** Setting an answer, not clearing one, keeps every cell of the checklist. */
  lemma AnswerKeepsCells(checklist: seq<ChecklistEntry>, t: Template, key: string, value: Json, x: Cell)
    requires x in ChecklistCells(checklist)
    ensures x in ChecklistCells(SetAnswer(checklist, t.id, t.kind, key, Some(value)))
  {
    hide ChecklistCells;
    hide EntryCells;
    hide SetAnswer;
    hide WithAnswer;
    CellsOfEntries(checklist, x);
    CellsOfEntries(SetAnswer(checklist, t.id, t.kind, key, Some(value)), x);
    var e :| e in checklist && x in EntryCells(e);
    WithAnswerKeeps(e, key, value, x);
    SetMember(checklist, t, key, value, e);
  }

  /** A number item answered with a number, or any other item answered at all, keeps every reading. */
  lemma AnswerKeepsReadings(templates: seq<Template>, checklist: seq<ChecklistEntry>, t: Template, key: string, value: Json, k: string)
    requires forall u, item :: u in templates && item in u.items && u.id == t.id && item.key == key && item.itemType.NumberItem?
                               ==> value.JNum?
    requires k in Readings(templates, checklist)
    ensures k in Readings(templates, SetAnswer(checklist, t.id, t.kind, key, Some(value)))
  {
    hide SetAnswer;
    hide GetAnswer;
    hide Readings;
    hide ReadFrom;
    var after := SetAnswer(checklist, t.id, t.kind, key, Some(value));
    ReadingsExact(templates, checklist, k);
    ReadingsExact(templates, after, k);
    var u :| u in templates && ReadFrom(u, u.items, checklist, k);
    StillReadFrom(u, checklist, t, key, value, k);
  }

  lemma StillReadFrom(u: Template, checklist: seq<ChecklistEntry>, t: Template, key: string, value: Json, k: string)
    requires forall item :: item in u.items && u.id == t.id && item.key == key && item.itemType.NumberItem? ==> value.JNum?
    requires ReadFrom(u, u.items, checklist, k)
    ensures ReadFrom(u, u.items, SetAnswer(checklist, t.id, t.kind, key, Some(value)), k)
  {
    hide SetAnswer;
    hide GetAnswer;
    GetAfterSet(checklist, t.id, t.kind, key, Some(value), u.id, k);
    var item :| item in u.items && item.key == k && item.itemType == NumberItem
                && ValidAnswer(NumberItem, GetAnswer(checklist, u.id, k));
    if u.id == t.id && k == key {
      assert Some(value) == Some(JNum(value.n));
    }
  }

  /**
   * Answering checklist items never costs the offline queue a reading: the
   * patch of the form with one answer set covers the patch before it, so
   * coalescing the two is exact. Clearing an answer gives no such guarantee.
   */
  lemma AnsweringIsCovered(form: Form, templates: seq<Template>, t: Template, key: string, value: Json)
    requires forall u, item :: u in templates && item in u.items && u.id == t.id && item.key == key && item.itemType.NumberItem?
                               ==> value.JNum?
    ensures var after := form.(checklist := SetAnswer(form.checklist, t.id, t.kind, key, Some(value)));
            Covers(QueuedPatch(FormToPatch(form, templates)), QueuedPatch(FormToPatch(after, templates)))
  {
    hide SetAnswer;
    hide Readings;
    hide ChecklistCells;
    var checklist := SetAnswer(form.checklist, t.id, t.kind, key, Some(value));
    forall k | k in Readings(templates, form.checklist) ensures k in Readings(templates, checklist) {
      AnswerKeepsReadings(templates, form.checklist, t, key, value, k);
    }
    forall x | x in ChecklistCells(form.checklist) ensures x in ChecklistCells(checklist) {
      AnswerKeepsCells(form.checklist, t, key, value, x);
    }
  }
}
