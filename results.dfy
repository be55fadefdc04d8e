/** The results step: the generated questions, which of them are expanded,
    the one edit session (an editing id and a draft copy of the question),
    and the choice of export format with the download request it leads to. */
module ResultsStep {
  import opened Common
  import opened Text

  /** One answer option: its label ("A", "B", "T", ...) and its text. */
  datatype QuestionOption = QuestionOption(letter: string, text: string)

  /** A generated question; `kind` is the question's `type` ("MCQ", ...). */
  datatype Question = Question(
    id: int,
    kind: string,
    bloomLevel: string,
    bloomPercent: int,
    question: string,
    options: seq<QuestionOption>,
    correctAnswer: string,
    rationale: string)

  /** The ids of the questions, in order. */
  function Ids(qs: seq<Question>): (r: seq<int>)
    ensures |r| == |qs|
    ensures forall i :: 0 <= i < |qs| ==> r[i] == qs[i].id
  {
    if qs == [] then [] else [qs[0].id] + Ids(qs[1..])
  }

  predicate DistinctIds(qs: seq<Question>) {
    forall i, j :: 0 <= i < j < |qs| ==> qs[i].id != qs[j].id
  }

  /** The labels of the options, in order. */
  function Labels(opts: seq<QuestionOption>): (r: seq<string>)
    ensures |r| == |opts|
    ensures forall i :: 0 <= i < |opts| ==> r[i] == opts[i].letter
  {
    if opts == [] then [] else [opts[0].letter] + Labels(opts[1..])
  }

  // ------------------------------------------------------------- expansion

  /** `toggleQuestion(id)` on the expanded list: removes every occurrence of
      a present id, appends an absent one. */
  function Toggled(expanded: seq<int>, id: int): (r: seq<int>)
    ensures id in r <==> id !in expanded
    ensures forall y :: y != id ==> (y in r <==> y in expanded)
    ensures NoDuplicates(expanded) ==> NoDuplicates(r)
  {
    if id in expanded then RemoveAll(expanded, id) else expanded + [id]
  }

  /** Toggling an id twice restores which ids are expanded; on a list
      without duplicates that did not hold the id, the list itself comes
      back. */
  lemma {:induction false} ToggleTwice(expanded: seq<int>, id: int)
    ensures forall y :: y in Toggled(Toggled(expanded, id), id) <==> y in expanded
    ensures id !in expanded ==> Toggled(Toggled(expanded, id), id) == expanded
  {
    if id !in expanded {
      RemoveAllAppended(expanded, id);
    }
  }

  // ------------------------------------------------------------------ edits

  /** The string-valued fields the edit form writes through `updateEditForm`. */
  datatype EditField = KindField | BloomLevelField | QuestionField | CorrectAnswerField | RationaleField

  /** `question[field]` for a string-valued field. */
  function FieldValue(q: Question, f: EditField): string
  {
    match f
    case KindField => q.kind
    case BloomLevelField => q.bloomLevel
    case QuestionField => q.question
    case CorrectAnswerField => q.correctAnswer
    case RationaleField => q.rationale
  }

  /** `{ ...editForm, [field]: value }`. */
  function WithField(q: Question, f: EditField, v: string): (r: Question)
    ensures FieldValue(r, f) == v
    ensures forall g :: g != f ==> FieldValue(r, g) == FieldValue(q, g)
    ensures r.id == q.id && r.bloomPercent == q.bloomPercent && r.options == q.options
  {
    match f
    case KindField => q.(kind := v)
    case BloomLevelField => q.(bloomLevel := v)
    case QuestionField => q.(question := v)
    case CorrectAnswerField => q.(correctAnswer := v)
    case RationaleField => q.(rationale := v)
  }

  /** Writing a field back with the value it already has changes nothing. */
  lemma WithFieldOwnValue(q: Question, f: EditField)
    ensures WithField(q, f, FieldValue(q, f)) == q
  {
  }

  /** The options after `updateOptionText(i, text)`: option `i` gets the new
      text and keeps its label; every other option stays. */
  function WithOptionText(opts: seq<QuestionOption>, i: nat, text: string): (r: seq<QuestionOption>)
    requires i < |opts|
    ensures |r| == |opts| && Labels(r) == Labels(opts)
    ensures r[i].text == text
    ensures forall j :: 0 <= j < |opts| && j != i ==> r[j] == opts[j]
  {
    var r := opts[i := opts[i].(text := text)];
    assert forall j :: 0 <= j < |r| ==> Labels(r)[j] == Labels(opts)[j];
    r
  }

  /** A correct answer that names one of the options still does after any
      option text is edited, since labels never change. */
  lemma OptionTextKeepsAnswer(d: Question, i: nat, text: string)
    requires i < |d.options| && d.correctAnswer in Labels(d.options)
    ensures d.correctAnswer in Labels(WithOptionText(d.options, i, text))
  {
  }

  /** `prev.map(q => q.id === draft.id ? draft : q)`. */
  function ReplaceById(qs: seq<Question>, draft: Question): (r: seq<Question>)
    ensures |r| == |qs|
    ensures forall i :: 0 <= i < |qs| ==> r[i] == if qs[i].id == draft.id then draft else qs[i]
  {
    if qs == [] then [] else [if qs[0].id == draft.id then draft else qs[0]] + ReplaceById(qs[1..], draft)
  }

  /** Saving keeps the sequence of ids, so distinct ids stay distinct. */
  lemma ReplaceByIdKeepsIds(qs: seq<Question>, draft: Question)
    ensures Ids(ReplaceById(qs, draft)) == Ids(qs)
    ensures DistinctIds(qs) ==> DistinctIds(ReplaceById(qs, draft))
  {
  }

  /** A draft whose id is not among the questions changes nothing; saving the
      same draft twice is saving it once. */
  lemma ReplaceByIdFacts(qs: seq<Question>, draft: Question)
    ensures draft.id !in Ids(qs) ==> ReplaceById(qs, draft) == qs
    ensures ReplaceById(ReplaceById(qs, draft), draft) == ReplaceById(qs, draft)
  {
    if draft.id !in Ids(qs) {
      forall i | 0 <= i < |qs| ensures qs[i].id != draft.id {
        assert Ids(qs)[i] == qs[i].id;
      }
    }
  }

  /** Editing question `k` and saving replaces that question and leaves every
      other one as it was, when ids are distinct. */
  lemma SaveReplacesOnlyEdited(qs: seq<Question>, k: nat, draft: Question)
    requires k < |qs| && DistinctIds(qs) && draft.id == qs[k].id
    ensures ReplaceById(qs, draft) == qs[k := draft]
  {
  }

  // ------------------------------------------------------------------ export

  const ApiBase: string := "https://portal.dev.karmayogibharat.net/ai-assment-generation/api/v1/"

  /** The export formats the picker offers. */
  const ExportFormats: seq<string> := ["pdf", "word", "json"]

  /** `${specificCourseId || courseIds}`: a non-empty specific id, otherwise
      the course-id array as a template literal prints it (comma-joined), or
      "undefined" when there is none. */
  function ExportId(specificCourseId: Option<string>, courseIds: Option<seq<string>>): (id: string)
    ensures specificCourseId.Some? && specificCourseId.value != "" ==> id == specificCourseId.value
    ensures (specificCourseId.None? || specificCourseId.value == "") && courseIds.Some? ==> id == Join(courseIds.value, ",")
    ensures (specificCourseId.None? || specificCourseId.value == "") && courseIds.None? ==> id == "undefined"
  {
    match specificCourseId
    case Some(s) =>
      if s != "" then s
      else (match courseIds case Some(c) => Join(c, ",") case None => "undefined")
    case None => (match courseIds case Some(c) => Join(c, ",") case None => "undefined")
  }

  /** Where a download is requested from and how it is saved. */
  datatype ExportRequest = ExportRequest(url: string, fileName: string, mimeType: string)

  /** The request `handleExport` makes for the selected format, or `None`
      when the url stays empty and it returns before any request. */
  function ExportTarget(format: string, id: string): (r: Option<ExportRequest>)
    ensures r.Some? <==> format == "json" || format == "pdf"
    ensures r.Some? ==> r.value == ExportRequest(ApiBase + "download_" + format + "/" + id,
                                                  "assessment." + format, "application/" + format)
  {
    if format == "json" then
      Some(ExportRequest(ApiBase + "download_json/" + id, "assessment.json", "application/json"))
    else if format == "pdf" then
      Some(ExportRequest(ApiBase + "download_pdf/" + id, "assessment.pdf", "application/pdf"))
    else None
  }

  /** Of the formats offered, "word" makes no request. */
  lemma WordExportsNothing(id: string)
    ensures ExportTarget("word", id).None?
    ensures forall f :: f in ExportFormats ==> (ExportTarget(f, id).None? <==> f == "word")
  {
  }

  /** The download url ends in the course id it was built from, so the id can
      be read back from the url. */
  lemma ExportUrlCarriesId(format: string, id: string)
    requires ExportTarget(format, id).Some?
    ensures var url := ExportTarget(format, id).value.url;
            |url| >= |id| && url[|url| - |id|..] == id
  {
    var url := ExportTarget(format, id).value.url;
    var prefix := ApiBase + "download_" + format + "/";
    assert url == prefix + id;
    assert url[|prefix|..] == id;
  }

  // --------------------------------------------------------------- session

  /** The component's state. `questions` is the parent's list, replaced
      through `setQuestions`. */
  class Session {
    var questions: seq<Question>
    var expanded: seq<int>
    var selectedFormat: string
    var editingId: Option<int>
    var editForm: Option<Question>

    /** Ids are distinct and expanded once each, the draft exists exactly
        while an id is being edited and has that id, and the format is one
        the picker offers. */
    ghost predicate Valid()
      reads this
    {
      && DistinctIds(questions)
      && NoDuplicates(expanded)
      && (editingId.Some? <==> editForm.Some?)
      && (editForm.Some? ==> editForm.value.id == editingId.value)
      && selectedFormat in ExportFormats
    }

    constructor (qs: seq<Question>)
      requires DistinctIds(qs)
      ensures Valid()
      ensures questions == qs && expanded == [] && selectedFormat == "pdf"
      ensures editingId == None && editForm == None
    {
      questions := qs;
      expanded := [];
      selectedFormat := "pdf";
      editingId := None;
      editForm := None;
    }

    /** `toggleQuestion(id)`. */
    method ToggleQuestion(id: int)
      requires Valid()
      modifies this`expanded
      ensures Valid()
      ensures expanded == Toggled(old(expanded), id)
    {
      if id in expanded {
        expanded := RemoveAll(expanded, id);
      } else {
        expanded := expanded + [id];
      }
    }

    /** A click on the header text: toggles, except on the question being
        edited. */
    method HeaderClick(id: int)
      requires Valid()
      modifies this`expanded
      ensures Valid()
      ensures expanded == if editingId == Some(id) then old(expanded) else Toggled(old(expanded), id)
    {
      if editingId != Some(id) {
        ToggleQuestion(id);
      }
    }

    /** `startEditing(q)`: the draft is a copy of `q`, and `q` is expanded
        without being listed twice. */
    method StartEditing(q: Question)
      requires Valid() && q in questions
      modifies this`editingId, this`editForm, this`expanded
      ensures Valid()
      ensures editingId == Some(q.id) && editForm == Some(q)
      ensures expanded == if q.id in old(expanded) then old(expanded) else old(expanded) + [q.id]
    {
      editingId := Some(q.id);
      editForm := Some(q);
      if q.id !in expanded {
        expanded := expanded + [q.id];
      }
    }

    /** `cancelEditing`: the draft is dropped; the questions are untouched. */
    method CancelEditing()
      requires Valid()
      modifies this`editingId, this`editForm
      ensures Valid()
      ensures editingId == None && editForm == None
    {
      editingId := None;
      editForm := None;
    }

    /** `saveEditing`: without a draft nothing happens; otherwise the draft
        replaces the questions with its id and the session closes. */
    method SaveEditing()
      requires Valid()
      modifies this`questions, this`editingId, this`editForm
      ensures Valid()
      ensures old(editForm).None? ==> questions == old(questions) && editingId == old(editingId) && editForm == None
      ensures old(editForm).Some? ==> questions == ReplaceById(old(questions), old(editForm).value)
      ensures editingId == None && editForm == None
    {
      if editForm.None? {
        return;
      }
      ReplaceByIdKeepsIds(questions, editForm.value);
      questions := ReplaceById(questions, editForm.value);
      editingId := None;
      editForm := None;
    }

    /** `updateEditForm(field, value)`: writes one string field of the
        draft; without a draft nothing happens. */
    method UpdateEditForm(f: EditField, value: string)
      requires Valid()
      modifies this`editForm
      ensures Valid()
      ensures editForm == if old(editForm).None? then None else Some(WithField(old(editForm).value, f, value))
    {
      if editForm.None? {
        return;
      }
      editForm := Some(WithField(editForm.value, f, value));
    }

    /** `updateOptionText(index, text)`: copies the draft's options, writes
        the new text into the copy at `index`, and stores the copy. The
        index comes from the rendered option list. */
    method UpdateOptionText(index: nat, text: string)
      requires Valid()
      requires editForm.Some? ==> index < |editForm.value.options|
      modifies this`editForm
      ensures Valid()
      ensures editForm == if old(editForm).None? then None
                          else Some(old(editForm).value.(options := WithOptionText(old(editForm).value.options, index, text)))
    {
      if editForm.None? {
        return;
      }
      var d := editForm.value;
      var newOptions := new QuestionOption[|d.options|](j requires 0 <= j < |d.options| => d.options[j]);
      assert newOptions[..] == d.options;
      newOptions[index] := newOptions[index].(text := text);
      assert newOptions[..] == d.options[index := d.options[index].(text := text)];
      editForm := Some(d.(options := newOptions[..]));
    }

    /** The label button of option `k` while editing: the correct answer
        becomes that option's label. */
    method ChooseCorrectAnswer(k: nat)
      requires Valid()
      requires editForm.Some? ==> k < |editForm.value.options|
      modifies this`editForm
      ensures Valid()
      ensures editForm.Some? <==> old(editForm).Some?
      ensures editForm.Some? ==> editForm.value == old(editForm).value.(correctAnswer := old(editForm).value.options[k].letter)
      ensures editForm.Some? ==> editForm.value.correctAnswer in Labels(editForm.value.options)
    {
      if editForm.None? {
        return;
      }
      UpdateEditForm(CorrectAnswerField, editForm.value.options[k].letter);
      assert Labels(editForm.value.options)[k] == editForm.value.correctAnswer;
    }

    /** "Expand All": exactly the question ids, in order. */
    method ExpandAll()
      requires Valid()
      modifies this`expanded
      ensures Valid()
      ensures expanded == Ids(questions)
    {
      expanded := Ids(questions);
    }

    /** "Collapse All". */
    method CollapseAll()
      requires Valid()
      modifies this`expanded
      ensures Valid()
      ensures expanded == []
    {
      expanded := [];
    }

    /** A click on one of the format tiles. */
    method SelectFormat(format: string)
      requires Valid() && format in ExportFormats
      modifies this`selectedFormat
      ensures Valid()
      ensures selectedFormat == format
    {
      selectedFormat := format;
    }

    /** The request part of `handleExport`, before any fetch. */
    method Export(specificCourseId: Option<string>, courseIds: Option<seq<string>>)
      returns (request: Option<ExportRequest>)
      requires Valid()
      ensures request == ExportTarget(selectedFormat, ExportId(specificCourseId, courseIds))
    {
      var id := ExportId(specificCourseId, courseIds);
      var url, fileName, mimeType := "", "", "";
      if selectedFormat == "json" {
        url, fileName, mimeType := ApiBase + "download_json/" + id, "assessment.json", "application/json";
      }
      if selectedFormat == "pdf" {
        url, fileName, mimeType := ApiBase + "download_pdf/" + id, "assessment.pdf", "application/pdf";
      }
      if url == "" {
        return None;
      }
      request := Some(ExportRequest(url, fileName, mimeType));
    }
  }

  /** An edit session run twice on question `k`: change its text and cancel,
      then change its text and save. Cancelling leaves the questions as they
      were; saving replaces question `k` only. */
  method EditScenario(qs: seq<Question>, k: nat, newText: string)
    returns (afterCancel: seq<Question>, afterSave: seq<Question>)
    requires DistinctIds(qs) && k < |qs|
    ensures afterCancel == qs
    ensures afterSave == qs[k := qs[k].(question := newText)]
  {
    var s := new Session(qs);
    s.StartEditing(qs[k]);
    s.UpdateEditForm(QuestionField, newText);
    s.CancelEditing();
    afterCancel := s.questions;
    s.StartEditing(qs[k]);
    s.UpdateEditForm(QuestionField, newText);
    s.SaveEditing();
    SaveReplacesOnlyEdited(qs, k, qs[k].(question := newText));
    afterSave := s.questions;
  }
}
