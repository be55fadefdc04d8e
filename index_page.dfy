/** The wizard page: it owns all wizard state, moves between the three steps,
    submits the generation request and reacts to the status polling. */
module IndexPage {
  import opened Common
  import opened Text
  import opened ConfigurationStep
  import ContentInputStep
  import StepNavigation

  type UploadFile = ContentInputStep.UploadFile

  // --------------------------------------------------------------- defaults

  const DefaultQuestionTypes: seq<QuestionType> := [
    QuestionType("mcq", "Multiple Choice", true, 10),
    QuestionType("ftb", "Fill in the blanks", true, 5),
    QuestionType("mtf", "Match the following", false, 0)
  ]

  const DefaultBloomValues: BloomValues := [
    BloomEntry("remember", 10),
    BloomEntry("understand", 20),
    BloomEntry("apply", 25),
    BloomEntry("analyze", 20),
    BloomEntry("evaluate", 15),
    BloomEntry("create", 10)
  ]

  const DefaultAssessmentType: string := "practice"
  const DefaultAssessmentLevel: string := "intermediate"
  const DefaultTimeLimit: int := 30

  /** The defaults are ready to generate: the weights sum to 100 and the
      enabled types ask for 15 questions. */
  lemma DefaultsBalanced()
    ensures BloomTotal(DefaultBloomValues) == 100 && DistinctLevels(DefaultBloomValues)
    ensures TotalQuestions(DefaultQuestionTypes) == 15 && DistinctTypeIds(DefaultQuestionTypes)
    ensures !GenerateDisabled(false, DefaultQuestionTypes, DefaultBloomValues)
  {
    DefaultBloomTotal();
    DefaultLevelsDistinct();
    DefaultTypesTotal();
  }

  lemma DefaultBloomTotal()
    ensures BloomTotal(DefaultBloomValues) == 100
  {
    var b := DefaultBloomValues;
    assert BloomTotal(b[5..]) == 10;
    assert BloomTotal(b[4..]) == 25;
    assert BloomTotal(b[3..]) == 45;
    assert BloomTotal(b[2..]) == 70;
    assert BloomTotal(b[1..]) == 90;
  }

  lemma DefaultLevelsDistinct()
    ensures DistinctLevels(DefaultBloomValues)
  {
  }

  lemma DefaultTypesTotal()
    ensures TotalQuestions(DefaultQuestionTypes) == 15 && DistinctTypeIds(DefaultQuestionTypes)
  {
  }

  // ---------------------------------------------------- Bloom weight change

  /** `{ ...prev, [level]: value }`: an existing key keeps its position and
      takes the new value; a new key is appended. */
  function WithBloomValue(b: BloomValues, level: string, value: int): (r: BloomValues)
    ensures |r| == if Weight(b, level).Some? then |b| else |b| + 1
    ensures forall i :: 0 <= i < |b| ==> r[i].level == b[i].level
    ensures |r| > |b| ==> r[|b|] == BloomEntry(level, value)
  {
    if b == [] then [BloomEntry(level, value)]
    else if b[0].level == level then [BloomEntry(level, value)] + b[1..]
    else [b[0]] + WithBloomValue(b[1..], level, value)
  }

  /** After the change the level has the new weight and every other level
      keeps its weight (or stays missing). */
  lemma {:induction false} WithBloomValueWeights(b: BloomValues, level: string, value: int)
    ensures Weight(WithBloomValue(b, level, value), level) == Some(value)
    ensures forall l :: l != level ==> Weight(WithBloomValue(b, level, value), l) == Weight(b, l)
  {
    if b != [] && b[0].level != level {
      WithBloomValueWeights(b[1..], level, value);
    }
  }

  /** The change keeps one weight per level. */
  lemma WithBloomValueDistinct(b: BloomValues, level: string, value: int)
    requires DistinctLevels(b)
    ensures DistinctLevels(WithBloomValue(b, level, value))
  {
    var r := WithBloomValue(b, level, value);
    if |r| > |b| {
      assert Weight(b, level).None?;
      forall i | 0 <= i < |b| ensures r[i].level != level {
        assert b[i].level == r[i].level;
      }
    }
  }

  /** Changing one weight changes the total by the difference. */
  lemma {:induction false} BloomTotalAfterChange(b: BloomValues, level: string, value: int)
    ensures BloomTotal(WithBloomValue(b, level, value))
            == BloomTotal(b) - (if Weight(b, level).Some? then Weight(b, level).value else 0) + value
  {
    if b != [] && b[0].level != level {
      BloomTotalAfterChange(b[1..], level, value);
    } else if b != [] {
      assert WithBloomValue(b, level, value)[1..] == b[1..];
    }
  }

  /** Starting from balanced weights, a "+5"/"-5" click that is not clamped
      away unbalances them, so generation is blocked until another weight is
      moved back. */
  lemma AdjustUnbalances(b: BloomValues, level: string, delta: int)
    requires BloomTotal(b) == 100
    requires AdjustBloomValue(b, level, delta) != (if Weight(b, level).Some? then Weight(b, level).value else 0)
    ensures BloomTotal(WithBloomValue(b, level, AdjustBloomValue(b, level, delta))) != 100
  {
    BloomTotalAfterChange(b, level, AdjustBloomValue(b, level, delta));
  }

  // ------------------------------------------------------ generation request

  /** A type is submitted when it is enabled and asks for at least one question. */
  predicate Submitted(t: QuestionType) {
    t.enabled && t.count > 0
  }

  /** The `question_types` sent: the ids of the submitted types, in table order. */
  function SubmittedTypeIds(types: seq<QuestionType>): (ids: seq<string>)
    ensures |ids| <= |types|
    ensures forall id :: id in ids <==> exists i :: 0 <= i < |types| && types[i].id == id && Submitted(types[i])
    ensures DistinctTypeIds(types) ==> NoDuplicates(ids)
  {
    if types == [] then []
    else
      var rest := SubmittedTypeIds(types[1..]);
      assert forall i :: 1 <= i < |types| ==> types[i] == types[1..][i - 1];
      assert DistinctTypeIds(types) ==> types[0].id !in rest;
      if Submitted(types[0]) then [types[0].id] + rest else rest
  }

  /** The submitted ids follow the table order: a type's id comes before the
      ids of the submitted types after it. */
  lemma {:induction false} SubmittedTypeIdsConcat(a: seq<QuestionType>, b: seq<QuestionType>)
    ensures SubmittedTypeIds(a + b) == SubmittedTypeIds(a) + SubmittedTypeIds(b)
  {
    if a != [] {
      assert (a + b)[1..] == a[1..] + b;
      SubmittedTypeIdsConcat(a[1..], b);
    } else {
      assert a + b == b;
    }
  }

  /** A multipart form field: text, or one of the two JSON-encoded values
      (kept structured; their serialisation is not modelled). */
  datatype FormEntry =
    | FormText(name: string, text: string)
    | FormBlooms(name: string, weights: BloomValues)
    | FormTopics(name: string, topicNames: seq<string>)

  function TypeEntries(ids: seq<string>): (r: seq<FormEntry>)
    ensures |r| == |ids|
    ensures forall i :: 0 <= i < |ids| ==> r[i] == FormText("question_types", ids[i])
  {
    if ids == [] then [] else [FormText("question_types", ids[0])] + TypeEntries(ids[1..])
  }

  lemma TypeEntriesSnoc(ids: seq<string>, k: nat)
    requires k < |ids|
    ensures TypeEntries(ids[..k + 1]) == TypeEntries(ids[..k]) + [FormText("question_types", ids[k])]
  {
    var a := TypeEntries(ids[..k + 1]);
    var b := TypeEntries(ids[..k]) + [FormText("question_types", ids[k])];
    assert |a| == |b|;
    forall i | 0 <= i < |a| ensures a[i] == b[i] {
      if i < k {
        assert ids[..k + 1][i] == ids[..k][i];
      }
    }
  }

  /** The fields before the `question_types` fields. */
  function FormHead(courseIds: seq<string>, assessmentType: string, difficulty: string,
                    types: seq<QuestionType>): seq<FormEntry>
  {
    [ FormText("course_ids", Join(courseIds, ",")),
      FormText("force", "false"),
      FormText("assessment_type", assessmentType),
      FormText("difficulty", difficulty),
      FormText("total_questions", IntToString(TotalQuestions(types))) ]
  }

  /** The fields after the `question_types` fields. */
  function FormTail(timeLimit: int, bloom: BloomValues, topics: seq<string>): seq<FormEntry>
  {
    [ FormText("time_limit", IntToString(timeLimit)),
      FormBlooms("blooms_config", bloom),
      FormTopics("topic_names", topics) ]
  }

  /** The form `handleGenerate` submits, field by field. */
  function GenerationForm(courseIds: seq<string>, assessmentType: string, difficulty: string,
                          types: seq<QuestionType>, timeLimit: int, bloom: BloomValues,
                          topics: seq<string>): seq<FormEntry>
  {
    FormHead(courseIds, assessmentType, difficulty, types)
    + TypeEntries(SubmittedTypeIds(types))
    + FormTail(timeLimit, bloom, topics)
  }

  /** The text values of the form's text fields called `name`, in order: what
      the service reads back for a repeated field. */
  function TextValues(form: seq<FormEntry>, name: string): seq<string>
  {
    if form == [] then []
    else (if form[0].FormText? && form[0].name == name then [form[0].text] else []) + TextValues(form[1..], name)
  }

  lemma {:induction false} TextValuesConcat(a: seq<FormEntry>, b: seq<FormEntry>, name: string)
    ensures TextValues(a + b, name) == TextValues(a, name) + TextValues(b, name)
  {
    if a != [] {
      assert (a + b)[1..] == a[1..] + b;
      TextValuesConcat(a[1..], b, name);
    } else {
      assert a + b == b;
    }
  }

  lemma {:induction false} TypeEntriesValues(ids: seq<string>, name: string)
    ensures TextValues(TypeEntries(ids), name) == if name == "question_types" then ids else []
  {
    if ids != [] {
      TypeEntriesValues(ids[1..], name);
      assert TypeEntries(ids)[1..] == TypeEntries(ids[1..]);
    }
  }

  /** `TextValues` of a form with a known first field. */
  lemma TextValuesCons(e: FormEntry, rest: seq<FormEntry>, name: string)
    ensures TextValues([e] + rest, name)
            == (if e.FormText? && e.name == name then [e.text] else []) + TextValues(rest, name)
  {
    assert ([e] + rest)[1..] == rest;
  }

  /** The text values the head of the form carries. */
  lemma FormHeadValues(courseIds: seq<string>, assessmentType: string, difficulty: string,
                       types: seq<QuestionType>)
    ensures var h := FormHead(courseIds, assessmentType, difficulty, types);
            && TextValues(h, "question_types") == []
            && TextValues(h, "total_questions") == [IntToString(TotalQuestions(types))]
            && TextValues(h, "force") == ["false"]
  {
    var h := FormHead(courseIds, assessmentType, difficulty, types);
    assert h == [h[0]] + ([h[1]] + ([h[2]] + ([h[3]] + ([h[4]] + []))));
    forall name | name == "question_types" || name == "total_questions" || name == "force"
      ensures TextValues(h, name) == (if name == "force" then ["false"] else [])
                                     + (if name == "total_questions" then [h[4].text] else [])
    {
      TextValuesCons(h[4], [], name);
      TextValuesCons(h[3], [h[4]] + [], name);
      TextValuesCons(h[2], [h[3]] + ([h[4]] + []), name);
      TextValuesCons(h[1], [h[2]] + ([h[3]] + ([h[4]] + [])), name);
      TextValuesCons(h[0], [h[1]] + ([h[2]] + ([h[3]] + ([h[4]] + []))), name);
    }
  }

  /** The only text field after the `question_types` fields is `time_limit`. */
  lemma FormTailValues(timeLimit: int, bloom: BloomValues, topics: seq<string>, name: string)
    ensures TextValues(FormTail(timeLimit, bloom, topics), name)
            == if name == "time_limit" then [IntToString(timeLimit)] else []
  {
    var t := FormTail(timeLimit, bloom, topics);
    assert t == [t[0]] + ([t[1]] + ([t[2]] + []));
    TextValuesCons(t[2], [], name);
    TextValuesCons(t[1], [t[2]] + [], name);
    TextValuesCons(t[0], [t[1]] + ([t[2]] + []), name);
  }

  /** The values of one text field of the form, from its three parts. */
  lemma FormTextValues(courseIds: seq<string>, assessmentType: string, difficulty: string,
                       types: seq<QuestionType>, timeLimit: int, bloom: BloomValues,
                       topics: seq<string>, name: string)
    ensures TextValues(GenerationForm(courseIds, assessmentType, difficulty, types, timeLimit, bloom, topics), name)
            == TextValues(FormHead(courseIds, assessmentType, difficulty, types), name)
               + (if name == "question_types" then SubmittedTypeIds(types) else [])
               + (if name == "time_limit" then [IntToString(timeLimit)] else [])
  {
    var head := FormHead(courseIds, assessmentType, difficulty, types);
    var mid := TypeEntries(SubmittedTypeIds(types));
    TextValuesConcat(head + mid, FormTail(timeLimit, bloom, topics), name);
    TextValuesConcat(head, mid, name);
    TypeEntriesValues(SubmittedTypeIds(types), name);
    FormTailValues(timeLimit, bloom, topics, name);
  }

  /** Read back from the form, `question_types` is the list of submitted ids
      in table order, and `total_questions` is the single enabled total,
      which counts enabled types even when their count is 0. */
  lemma FormCarriesConfiguration(courseIds: seq<string>, assessmentType: string, difficulty: string,
                                 types: seq<QuestionType>, timeLimit: int, bloom: BloomValues,
                                 topics: seq<string>)
    ensures var form := GenerationForm(courseIds, assessmentType, difficulty, types, timeLimit, bloom, topics);
            && TextValues(form, "question_types") == SubmittedTypeIds(types)
            && TextValues(form, "total_questions") == [IntToString(TotalQuestions(types))]
            && TextValues(form, "force") == ["false"]
  {
    FormTextValues(courseIds, assessmentType, difficulty, types, timeLimit, bloom, topics, "question_types");
    FormTextValues(courseIds, assessmentType, difficulty, types, timeLimit, bloom, topics, "total_questions");
    FormTextValues(courseIds, assessmentType, difficulty, types, timeLimit, bloom, topics, "force");
    FormHeadValues(courseIds, assessmentType, difficulty, types);
  }

  /** The form-building part of `handleGenerate`; the `forEach` appends one
      `question_types` field per submitted id. */
  method BuildGenerationForm(courseIds: seq<string>, assessmentType: string, difficulty: string,
                             types: seq<QuestionType>, timeLimit: int, bloom: BloomValues,
                             topics: seq<string>) returns (form: seq<FormEntry>)
    ensures form == GenerationForm(courseIds, assessmentType, difficulty, types, timeLimit, bloom, topics)
  {
    var ids := SubmittedTypeIds(types);
    form := FormHead(courseIds, assessmentType, difficulty, types);
    ghost var head := form;
    var k := 0;
    while k < |ids|
      invariant 0 <= k <= |ids|
      invariant form == head + TypeEntries(ids[..k])
    {
      TypeEntriesSnoc(ids, k);
      form := form + [FormText("question_types", ids[k])];
      k := k + 1;
    }
    assert ids[..k] == ids;
    form := form + FormTail(timeLimit, bloom, topics);
  }

  // ---------------------------------------------------------------- polling

  /** One answer to a status request: the `status` field of the response, or
      an exception from the request or from decoding its body. */
  datatype StatusResponse = Status(status: string) | Threw

  /** The callbacks `pollGenerationStatus` can invoke. */
  datatype Callback = OnComplete(status: string) | OnError

  predicate IsTerminal(status: string) {
    status == "COMPLETED" || status == "FAILED"
  }

  /** A response after which `poll` schedules another request. */
  predicate Continues(r: StatusResponse) {
    r.Status? && !IsTerminal(r.status)
  }

  /** The callbacks invoked when the successive requests get the answers
      `rs`: polling stops at the first terminal status or exception. */
  function PollTrace(rs: seq<StatusResponse>): (t: seq<Callback>)
    ensures |t| <= 1
    ensures t == [] <==> forall i :: 0 <= i < |rs| ==> Continues(rs[i])
  {
    if rs == [] then []
    else match rs[0]
      case Threw => [OnError]
      case Status(s) =>
        if IsTerminal(s) then [OnComplete(s)]
        else
          var t := PollTrace(rs[1..]);
          assert forall i :: 1 <= i < |rs| ==> rs[i] == rs[1..][i - 1];
          t
  }

  /** Polling calls exactly one callback, chosen by the first answer that is
      not a "keep polling" status: `OnComplete` for COMPLETED and for FAILED,
      `OnError` for an exception. */
  lemma {:induction false} PollStopsAtFirstTerminal(rs: seq<StatusResponse>, i: nat)
    requires i < |rs| && !Continues(rs[i])
    requires forall j :: 0 <= j < i ==> Continues(rs[j])
    ensures PollTrace(rs) == [if rs[i].Threw? then OnError else OnComplete(rs[i].status)]
  {
    if i > 0 {
      assert Continues(rs[0]);
      PollStopsAtFirstTerminal(rs[1..], i - 1);
    }
  }

  /** PENDING, PENDING, COMPLETED: one completion, after the third request. */
  lemma PollPendingThenCompleted()
    ensures PollTrace([Status("PENDING"), Status("PENDING"), Status("COMPLETED")]) == [OnComplete("COMPLETED")]
    ensures PollTrace([Status("FAILED"), Status("COMPLETED")]) == [OnComplete("FAILED")]
    ensures PollTrace([Status("PENDING"), Threw, Status("COMPLETED")]) == [OnError]
  {
  }

  /** `poll`, with the timer replaced by the next answer of the sequence:
      returns the callbacks invoked and the number of requests made. */
  method Poll(rs: seq<StatusResponse>) returns (calls: seq<Callback>, requests: nat)
    ensures calls == PollTrace(rs)
    ensures requests <= |rs|
    ensures forall j :: 0 <= j < requests - 1 ==> Continues(rs[j])
    ensures calls == [] ==> requests == |rs|
    ensures calls != [] ==> requests >= 1 && !Continues(rs[requests - 1])
  {
    calls, requests := [], 0;
    while requests < |rs|
      invariant requests <= |rs|
      invariant forall j :: 0 <= j < requests ==> Continues(rs[j])
      invariant PollTrace(rs) == PollTrace(rs[requests..])
    {
      var r := rs[requests];
      assert rs[requests..][1..] == rs[requests + 1..];
      requests := requests + 1;
      match r {
        case Threw =>
          calls := [OnError];
          return;
        case Status(s) =>
          if s == "COMPLETED" {
            calls := [OnComplete(s)];
            return;
          }
          if s == "FAILED" {
            calls := [OnComplete(s)];
            return;
          }
      }
    }
  }

  // ----------------------------------------------------------------- wizard

  /** The answer to the generation request: a job id, or a failure (a non-OK
      status, a network error or an undecodable body). */
  datatype SubmitResponse = Accepted(jobId: string) | Rejected

  /** All of the page's state, as one value. */
  datatype WizardState = WizardState(
    assessmentType: string,
    currentStep: string,
    completedSteps: seq<string>,
    courseIds: seq<string>,
    topics: seq<string>,
    notes: string,
    transcriptFiles: seq<UploadFile>,
    materialFiles: seq<UploadFile>,
    questionTypes: seq<QuestionType>,
    assessmentLevel: string,
    bloomValues: BloomValues,
    timeLimit: int,
    isGenerating: bool,
    isGenerated: bool)

  /** The wizard's invariant: the step is one of the three, completed steps
      are steps and are recorded once, and each Bloom level has one weight. */
  predicate ValidState(s: WizardState) {
    && s.currentStep in StepNavigation.Steps
    && NoDuplicates(s.completedSteps)
    && (forall x :: x in s.completedSteps ==> x in StepNavigation.Steps)
    && DistinctLevels(s.bloomValues)
  }

  /** What `handleStartOver` leaves: every field back to its default, except
      the assessment type and the generating flag, which it does not touch. */
  function StartOverState(s: WizardState): (r: WizardState)
    ensures ValidState(r)
    ensures r.assessmentType == s.assessmentType && r.isGenerating == s.isGenerating
    ensures r.currentStep == StepNavigation.ContentStep && r.completedSteps == [] && !r.isGenerated
    ensures BloomTotal(r.bloomValues) == 100 && TotalQuestions(r.questionTypes) == 15
  {
    DefaultsBalanced();
    s.(currentStep := StepNavigation.ContentStep, completedSteps := [], courseIds := [], topics := [],
       notes := "", transcriptFiles := [], materialFiles := [], questionTypes := DefaultQuestionTypes,
       assessmentLevel := DefaultAssessmentLevel, bloomValues := DefaultBloomValues,
       timeLimit := DefaultTimeLimit, isGenerated := false)
  }

  /** The state on first render. */
  function InitialState(): (r: WizardState)
    ensures ValidState(r) && r == StartOverState(r)
    ensures r.assessmentType == DefaultAssessmentType && !r.isGenerating && !r.isGenerated
  {
    StartOverState(WizardState(DefaultAssessmentType, "", [], [], [], "", [], [], [], "", [], 0, false, false))
  }

  /** Starting over twice is the same as starting over once. */
  lemma StartOverIdempotent(s: WizardState)
    ensures StartOverState(StartOverState(s)) == StartOverState(s)
  {
  }

  /** Completing generation: results shown, flags set, "configuration"
      recorded once. */
  function CompletedState(s: WizardState): (r: WizardState)
    ensures ValidState(s) ==> ValidState(r)
    ensures r.currentStep == StepNavigation.ResultsStep && r.isGenerated && !r.isGenerating
    ensures forall x :: x in r.completedSteps <==> x in s.completedSteps || x == StepNavigation.ConfigurationStep
  {
    s.(currentStep := StepNavigation.ResultsStep, isGenerating := false, isGenerated := true,
       completedSteps := AddUnique(s.completedSteps, StepNavigation.ConfigurationStep))
  }

  class Wizard {
    var assessmentType: string
    var currentStep: string
    var completedSteps: seq<string>
    var courseIds: seq<string>
    var topics: seq<string>
    var notes: string
    var transcriptFiles: seq<UploadFile>
    var materialFiles: seq<UploadFile>
    var questionTypes: seq<QuestionType>
    var assessmentLevel: string
    var bloomValues: BloomValues
    var timeLimit: int
    var isGenerating: bool
    var isGenerated: bool

    function State(): WizardState
      reads this
    {
      WizardState(assessmentType, currentStep, completedSteps, courseIds, topics, notes,
                  transcriptFiles, materialFiles, questionTypes, assessmentLevel, bloomValues,
                  timeLimit, isGenerating, isGenerated)
    }

    ghost predicate Valid()
      reads this
    {
      ValidState(State())
    }

    constructor ()
      ensures Valid() && State() == InitialState()
    {
      new;
      Load(InitialState());
    }

    /** `handleBloomChange(level, value)`: sets that one weight. */
    method HandleBloomChange(level: string, value: int)
      requires Valid()
      modifies this`bloomValues
      ensures Valid()
      ensures State() == old(State()).(bloomValues := WithBloomValue(old(bloomValues), level, value))
    {
      WithBloomValueDistinct(bloomValues, level, value);
      bloomValues := WithBloomValue(bloomValues, level, value);
    }

    /** `handleContentNext`: with no topics nothing changes (a notice is
        shown); otherwise "content" is recorded once and the configuration
        step opens. */
    method HandleContentNext() returns (accepted: bool)
      requires Valid()
      modifies this`completedSteps, this`currentStep
      ensures Valid()
      ensures accepted == ContentInputStep.CanProceed(old(topics))
      ensures !accepted ==> State() == old(State())
      ensures accepted ==> State() == old(State()).(
                completedSteps := AddUnique(old(completedSteps), StepNavigation.ContentStep),
                currentStep := StepNavigation.ConfigurationStep)
      ensures accepted ==> completedSteps == if StepNavigation.ContentStep in old(completedSteps)
                                              then old(completedSteps)
                                              else old(completedSteps) + [StepNavigation.ContentStep]
    {
      if |topics| == 0 {
        accepted := false;
        return;
      }
      AddUniqueAppends(completedSteps, StepNavigation.ContentStep);
      completedSteps := AddUnique(completedSteps, StepNavigation.ContentStep);
      currentStep := StepNavigation.ConfigurationStep;
      accepted := true;
    }

    /** `onStepChange` from the step bar and `onBack` from the configuration
        step; both pass one of the three step ids. */
    method SetCurrentStep(step: string)
      requires Valid() && step in StepNavigation.Steps
      modifies this`currentStep
      ensures Valid()
      ensures State() == old(State()).(currentStep := step)
    {
      currentStep := step;
    }

    /** The assessment-type selector: a new type clears the course ids. */
    method SelectAssessmentType(t: string)
      requires Valid()
      modifies this`assessmentType, this`courseIds
      ensures Valid()
      ensures State() == old(State()).(assessmentType := t, courseIds := [])
    {
      assessmentType := t;
      courseIds := [];
    }

    /** Replaces every field at once: the new state is `s`. */
    method Load(s: WizardState)
      modifies this
      ensures State() == s
    {
      LoadSteps(s);
      LoadContent(s);
      LoadConfiguration(s);
    }

    method LoadSteps(s: WizardState)
      modifies this`assessmentType, this`currentStep, this`completedSteps, this`isGenerating, this`isGenerated
      ensures assessmentType == s.assessmentType && currentStep == s.currentStep
      ensures completedSteps == s.completedSteps
      ensures isGenerating == s.isGenerating && isGenerated == s.isGenerated
    {
      assessmentType, currentStep, completedSteps := s.assessmentType, s.currentStep, s.completedSteps;
      isGenerating, isGenerated := s.isGenerating, s.isGenerated;
    }

    method LoadContent(s: WizardState)
      modifies this`courseIds, this`topics, this`notes, this`transcriptFiles, this`materialFiles
      ensures courseIds == s.courseIds && topics == s.topics && notes == s.notes
      ensures transcriptFiles == s.transcriptFiles && materialFiles == s.materialFiles
    {
      courseIds, topics, notes := s.courseIds, s.topics, s.notes;
      transcriptFiles, materialFiles := s.transcriptFiles, s.materialFiles;
    }

    method LoadConfiguration(s: WizardState)
      modifies this`questionTypes, this`assessmentLevel, this`bloomValues, this`timeLimit
      ensures questionTypes == s.questionTypes && assessmentLevel == s.assessmentLevel
      ensures bloomValues == s.bloomValues && timeLimit == s.timeLimit
    {
      questionTypes, assessmentLevel, bloomValues, timeLimit := s.questionTypes, s.assessmentLevel, s.bloomValues, s.timeLimit;
    }

    /** `handleStartOver`. */
    method HandleStartOver()
      requires Valid()
      modifies this
      ensures Valid()
      ensures State() == StartOverState(old(State()))
    {
      Load(StartOverState(State()));
    }

    /** The synchronous start of `handleGenerate`: the generating flag is set
        and the form is built from the current configuration. */
    method BeginGenerate() returns (form: seq<FormEntry>)
      requires Valid()
      modifies this`isGenerating
      ensures Valid()
      ensures State() == old(State()).(isGenerating := true)
      ensures form == GenerationForm(courseIds, assessmentType, assessmentLevel, questionTypes,
                                     timeLimit, bloomValues, topics)
    {
      isGenerating := true;
      form := BuildGenerationForm(courseIds, assessmentType, assessmentLevel, questionTypes,
                                  timeLimit, bloomValues, topics);
    }

    /** The `onComplete` callback of the polling. */
    method OnGenerationComplete()
      requires Valid()
      modifies this`currentStep, this`isGenerating, this`isGenerated, this`completedSteps
      ensures Valid()
      ensures State() == CompletedState(old(State()))
    {
      currentStep := StepNavigation.ResultsStep;
      isGenerating := false;
      isGenerated := true;
      completedSteps := AddUnique(completedSteps, StepNavigation.ConfigurationStep);
    }

    /** The `onError` callback of the polling and the `catch` of the
        submission: only the generating flag drops. */
    method OnGenerationFailed()
      requires Valid()
      modifies this`isGenerating
      ensures Valid()
      ensures State() == old(State()).(isGenerating := false)
    {
      isGenerating := false;
    }

    /** `handleGenerate` run to its end, given the submission's answer and the
        answers the status requests get. While no terminal answer has come,
        the wizard stays generating. */
    method HandleGenerate(submit: SubmitResponse, rs: seq<StatusResponse>)
      returns (form: seq<FormEntry>, calls: seq<Callback>)
      requires Valid()
      modifies this
      ensures Valid()
      ensures form == GenerationForm(old(courseIds), old(assessmentType), old(assessmentLevel),
                                     old(questionTypes), old(timeLimit), old(bloomValues), old(topics))
      ensures calls == if submit.Rejected? then [] else PollTrace(rs)
      ensures submit.Rejected? || calls == [OnError] ==> State() == old(State()).(isGenerating := false)
      ensures submit.Accepted? && calls == [] ==> State() == old(State()).(isGenerating := true)
      ensures submit.Accepted? && |calls| == 1 && calls[0].OnComplete? ==>
                State() == CompletedState(old(State()))
    {
      form := BeginGenerate();
      if submit.Rejected? {
        calls := [];
        OnGenerationFailed();
        return;
      }
      var requests;
      calls, requests := Poll(rs);
      if calls != [] {
        match calls[0] {
          case OnComplete(_) => OnGenerationComplete();
          case OnError => OnGenerationFailed();
        }
      }
    }
  }

  /** Generation completing for a wizard whose "configuration" step was
      already recorded leaves the completed steps as they were. */
  lemma CompletionRecordsConfigurationOnce(s: WizardState)
    requires NoDuplicates(s.completedSteps)
    ensures CompletedState(s).completedSteps
            == if StepNavigation.ConfigurationStep in s.completedSteps then s.completedSteps
               else s.completedSteps + [StepNavigation.ConfigurationStep]
  {
    AddUniqueAppends(s.completedSteps, StepNavigation.ConfigurationStep);
  }
}
