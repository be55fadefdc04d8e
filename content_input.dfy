/** The content step of the wizard: course ids, topics and attached files.
    The lists are owned by the page and replaced through callbacks; the step
    itself keeps only the "new topic" text and whether the course picker is
    open. */
module ContentInputStep {
  import opened Common
  import opened Text
  import SubjectTopicInput

  /** The catalogue entry meaning "no course". */
  const NoCourse: string := "NA"

  const ComprehensiveType: string := "comprehensive"

  /** A catalogue entry; `caption` is the source's `label` (a Dafny keyword). */
  datatype CourseOption = CourseOption(value: string, caption: string)

  /** The fixed course catalogue shown in the picker. */
  const AvailableCourseIds: seq<CourseOption> := [
    CourseOption("NA", "N/A - No Course ID"),
    CourseOption("CS101", "CS101 - Introduction to Computer Science"),
    CourseOption("CS201", "CS201 - Data Structures"),
    CourseOption("CS301", "CS301 - Algorithms"),
    CourseOption("CS401", "CS401 - Machine Learning"),
    CourseOption("MATH101", "MATH101 - Calculus I"),
    CourseOption("MATH201", "MATH201 - Linear Algebra"),
    CourseOption("PHY101", "PHY101 - Physics I"),
    CourseOption("ENG101", "ENG101 - English Composition")
  ]

  // ---------------------------------------------------------------- courses

  /** The course-id list `handleCourseSelect(value)` hands to the page. */
  function SelectCourse(courseIds: seq<string>, value: string, comprehensive: bool): (r: seq<string>)
    ensures value == NoCourse ==> r == [NoCourse]
    ensures value != NoCourse && !comprehensive ==> r == [value]
    ensures value != NoCourse && comprehensive ==>
      && NoCourse !in r
      && (value in r <==> value !in courseIds)
      && (forall id :: id != value ==> (id in r <==> id in courseIds && id != NoCourse))
  {
    if value == NoCourse then [NoCourse]
    else if !comprehensive then [value]
    else
      var filtered := RemoveAll(courseIds, NoCourse);
      if value in filtered then RemoveAll(filtered, value) else filtered + [value]
  }

  /** Outside comprehensive mode at most one course is ever selected. */
  lemma SingleSelectAtMostOne(courseIds: seq<string>, value: string)
    ensures |SelectCourse(courseIds, value, false)| == 1
  {
  }

  /** Multi-select never introduces a duplicate. */
  lemma {:induction false} MultiSelectKeepsDistinct(courseIds: seq<string>, value: string)
    requires NoDuplicates(courseIds)
    ensures NoDuplicates(SelectCourse(courseIds, value, true))
  {
    var filtered := RemoveAll(courseIds, NoCourse);
    if value != NoCourse && value !in filtered {
      assert forall k :: 0 <= k < |filtered| ==> filtered[k] != value;
    }
  }

  /** Selecting a course in multi-select mode and then selecting it again
      gives back the original selection without "NA"; when the course was
      not selected before, the list comes back exactly, order included. */
  lemma {:induction false} MultiSelectTwice(courseIds: seq<string>, value: string)
    requires value != NoCourse
    ensures SelectCourse(SelectCourse(courseIds, value, true), value, true)
            == if value in courseIds then RemoveAll(RemoveAll(courseIds, NoCourse), value) + [value]
               else RemoveAll(courseIds, NoCourse)
  {
    var filtered := RemoveAll(courseIds, NoCourse);
    var once := SelectCourse(courseIds, value, true);
    assert RemoveAll(once, NoCourse) == once;
    if value in filtered {
      assert once == RemoveAll(filtered, value);
    } else {
      assert once == filtered + [value];
      RemoveAllAppended(filtered, value);
    }
  }

  /** Hence selecting twice restores which courses are selected. */
  lemma MultiSelectTwiceMembership(courseIds: seq<string>, value: string, id: string)
    requires value != NoCourse
    ensures id in SelectCourse(SelectCourse(courseIds, value, true), value, true)
            <==> id in courseIds && id != NoCourse
  {
    MultiSelectTwice(courseIds, value);
  }

  /** `removeCourseId(id)`. */
  function RemoveCourseId(courseIds: seq<string>, id: string): (r: seq<string>)
    ensures id !in r
    ensures forall c :: c != id ==> (c in r <==> c in courseIds)
    ensures multiset(r) == multiset(courseIds)[id := 0]
  {
    RemoveAllMultiset(courseIds, id);
    RemoveAll(courseIds, id)
  }

  /** `catalogue.find(c => c.value === id)?.label`. */
  function FindLabel(catalogue: seq<CourseOption>, id: string): (r: Option<string>)
    ensures r.Some? <==> exists k :: 0 <= k < |catalogue| && catalogue[k].value == id
    ensures r.Some? ==> exists k :: 0 <= k < |catalogue| && catalogue[k].value == id && catalogue[k].caption == r.value
  {
    if catalogue == [] then None
    else if catalogue[0].value == id then Some(catalogue[0].caption)
    else
      var r := FindLabel(catalogue[1..], id);
      assert forall k :: 1 <= k < |catalogue| ==> catalogue[k] == catalogue[1..][k - 1];
      r
  }

  const CountSuffix: string := " courses selected"

  /** The text on the course picker button for a given catalogue. */
  const NoSelectionLabel: string := "Select course..."

  /** The text on the course picker button for a given catalogue: a prompt
      when nothing is selected, the label of a single course (or its id when
      the catalogue has no non-empty label for it), and the count otherwise. */
  function ButtonLabel(catalogue: seq<CourseOption>, courseIds: seq<string>): (r: string)
    ensures |courseIds| == 0 ==> r == NoSelectionLabel
    ensures |courseIds| == 1 ==>
              r == courseIds[0]
              || exists k :: 0 <= k < |catalogue| && catalogue[k].value == courseIds[0] && catalogue[k].caption == r
    ensures |courseIds| >= 2 ==> EndsWith(r, CountSuffix) && r[..|r| - |CountSuffix|] == NatToString(|courseIds|)
  {
    if |courseIds| == 0 then NoSelectionLabel
    else if |courseIds| == 1 then
      match FindLabel(catalogue, courseIds[0])
      case Some(caption) => if caption != "" then caption else courseIds[0]
      case None => courseIds[0]
    else NatToString(|courseIds|) + CountSuffix
  }

  /** The text on the course picker button (`selectedCourseLabels`). */
  function SelectedCourseLabel(courseIds: seq<string>): (r: string)
    ensures |courseIds| == 0 ==> r == NoSelectionLabel
    ensures |courseIds| == 1 ==>
              r == courseIds[0]
              || exists k :: 0 <= k < |AvailableCourseIds| && AvailableCourseIds[k].value == courseIds[0]
                             && AvailableCourseIds[k].caption == r
  {
    ButtonLabel(AvailableCourseIds, courseIds)
  }

  /** The lookup returns the label of the first entry with the value. */
  lemma {:induction false} FindLabelFirst(catalogue: seq<CourseOption>, id: string, k: nat)
    requires k < |catalogue| && catalogue[k].value == id
    requires forall j :: 0 <= j < k ==> catalogue[j].value != id
    ensures FindLabel(catalogue, id) == Some(catalogue[k].caption)
  {
    if k > 0 {
      assert catalogue[0].value != id;
      FindLabelFirst(catalogue[1..], id, k - 1);
    }
  }

  /** No two catalogue entries share a value. */
  lemma CatalogueValuesDistinct(j: nat, k: nat)
    requires j < k < |AvailableCourseIds|
    ensures AvailableCourseIds[j].value != AvailableCourseIds[k].value
  {
    assert AvailableCourseIds[j].value[..2] != AvailableCourseIds[k].value[..2]
        || |AvailableCourseIds[j].value| != |AvailableCourseIds[k].value|
        || AvailableCourseIds[j].value[2..] != AvailableCourseIds[k].value[2..];
  }

  /** With one listed course selected, a catalogue whose values are distinct
      and whose labels are non-empty shows that course's label. */
  lemma ButtonLabelOfListed(catalogue: seq<CourseOption>, k: nat)
    requires k < |catalogue| && catalogue[k].caption != ""
    requires forall j :: 0 <= j < k ==> catalogue[j].value != catalogue[k].value
    ensures ButtonLabel(catalogue, [catalogue[k].value]) == catalogue[k].caption
  {
    FindLabelFirst(catalogue, catalogue[k].value, k);
  }

  /** With one catalogue course selected, the button shows its catalogue
      label. */
  lemma SingleCourseLabel(k: nat)
    requires k < |AvailableCourseIds|
    ensures SelectedCourseLabel([AvailableCourseIds[k].value]) == AvailableCourseIds[k].caption
  {
    forall j | 0 <= j < k ensures AvailableCourseIds[j].value != AvailableCourseIds[k].value {
      CatalogueValuesDistinct(j, k);
    }
    assert AvailableCourseIds[k].caption != "" by {
      assert forall j :: 0 <= j < |AvailableCourseIds| ==> AvailableCourseIds[j].caption[0] == AvailableCourseIds[j].value[0];
    }
    ButtonLabelOfListed(AvailableCourseIds, k);
  }

  /** An id outside the catalogue shows itself. */
  lemma UnknownCourseLabel(id: string)
    requires forall j :: 0 <= j < |AvailableCourseIds| ==> AvailableCourseIds[j].value != id
    ensures SelectedCourseLabel([id]) == id
  {
  }

  /** With two or more courses the button shows the count in decimal followed
      by " courses selected", and the digits read back as the count. */
  lemma {:induction false} ManyCoursesLabel(courseIds: seq<string>)
    requires |courseIds| >= 2
    ensures EndsWith(SelectedCourseLabel(courseIds), CountSuffix)
    ensures var r := SelectedCourseLabel(courseIds);
            var digits := r[..|r| - |CountSuffix|];
            IsDigits(digits) && DigitsValue(digits) == |courseIds|
  {
    var r := SelectedCourseLabel(courseIds);
    assert r[..|r| - |CountSuffix|] == NatToString(|courseIds|);
    NatToStringValue(|courseIds|);
  }

  // ------------------------------------------------------------------ files

  /** A picked file: its name and its size in bytes. */
  datatype UploadFile = UploadFile(name: string, size: int)

  const MaxTranscripts: nat := 10
  const MaxMaterials: nat := 3
  const MaxMaterialBytes: int := 25 * 1024 * 1024

  predicate IsTranscriptName(name: string) {
    EndsWith(name, ".vtt") || EndsWith(name, ".txt")
  }

  predicate IsAcceptedMaterial(f: UploadFile) {
    EndsWith(f.name, ".pdf") && f.size <= MaxMaterialBytes
  }

  predicate IsTranscript(f: UploadFile) {
    IsTranscriptName(f.name)
  }

  /** The picked files with a transcript extension, each as often as it was
      picked; `AcceptedTranscriptsConcat` and `AcceptedTranscriptsSingle`
      pin down their order. */
  function AcceptedTranscripts(picked: seq<UploadFile>): (r: seq<UploadFile>)
    ensures forall f :: f in r <==> f in picked && IsTranscriptName(f.name)
    ensures forall f :: multiset(r)[f] == if IsTranscriptName(f.name) then multiset(picked)[f] else 0
    ensures r == picked <==> forall i :: 0 <= i < |picked| ==> IsTranscriptName(picked[i].name)
  {
    FilterMultiset(picked, IsTranscript);
    Filter(picked, IsTranscript)
  }

  /** The transcripts of two batches of picks are those of the first batch
      followed by those of the second: pick order is kept. */
  lemma AcceptedTranscriptsConcat(a: seq<UploadFile>, b: seq<UploadFile>)
    ensures AcceptedTranscripts(a + b) == AcceptedTranscripts(a) + AcceptedTranscripts(b)
  {
    FilterConcat(a, b, IsTranscript);
  }

  /** A single pick is kept exactly when its name is a transcript name. */
  lemma AcceptedTranscriptsSingle(f: UploadFile)
    ensures AcceptedTranscripts([f]) == if IsTranscriptName(f.name) then [f] else []
  {
    FilterSingleton(f, IsTranscript);
  }

  /** The picked `.pdf` files within the size limit, each as often as it was
      picked; `AcceptedMaterialsConcat` and `AcceptedMaterialsSingle` pin
      down their order. */
  function AcceptedMaterials(picked: seq<UploadFile>): (r: seq<UploadFile>)
    ensures forall f :: f in r <==> f in picked && IsAcceptedMaterial(f)
    ensures forall f :: multiset(r)[f] == if IsAcceptedMaterial(f) then multiset(picked)[f] else 0
  {
    FilterMultiset(picked, IsAcceptedMaterial);
    Filter(picked, IsAcceptedMaterial)
  }

  /** The materials of two batches of picks are those of the first batch
      followed by those of the second: pick order is kept. */
  lemma AcceptedMaterialsConcat(a: seq<UploadFile>, b: seq<UploadFile>)
    ensures AcceptedMaterials(a + b) == AcceptedMaterials(a) + AcceptedMaterials(b)
  {
    FilterConcat(a, b, IsAcceptedMaterial);
  }

  /** A single pick is kept exactly when it is an acceptable material. */
  lemma AcceptedMaterialsSingle(f: UploadFile)
    ensures AcceptedMaterials([f]) == if IsAcceptedMaterial(f) then [f] else []
  {
    FilterSingleton(f, IsAcceptedMaterial);
  }

  /** What a transcript upload produces: the new list and whether the
      "Invalid File Type" notice is shown. */
  datatype TranscriptIntake = TranscriptIntake(files: seq<UploadFile>, invalidTypeNotice: bool)

  /** `handleTranscriptUpload`: keep the picked `.vtt`/`.txt` files, append
      them after the existing ones and keep the first ten. */
  function UploadTranscripts(existing: seq<UploadFile>, picked: seq<UploadFile>): (r: TranscriptIntake)
    ensures |r.files| == Min(MaxTranscripts, |existing| + |AcceptedTranscripts(picked)|)
    ensures r.files == (existing + AcceptedTranscripts(picked))[..|r.files|]
    ensures |existing| <= MaxTranscripts ==> r.files[..|existing|] == existing
    ensures forall f :: f in r.files ==> f in existing || (f in picked && IsTranscriptName(f.name))
    ensures |existing| + |AcceptedTranscripts(picked)| <= MaxTranscripts ==>
              r.files == existing + AcceptedTranscripts(picked)
    ensures r.invalidTypeNotice <==> exists i :: 0 <= i < |picked| && !IsTranscriptName(picked[i].name)
  {
    var valid := AcceptedTranscripts(picked);
    var all := existing + valid;
    var files := Take(all, MaxTranscripts);
    assert forall f :: f in files ==> f in all;
    TranscriptIntake(files, |valid| != |picked|)
  }

  /** With ten transcripts already attached, nothing more is accepted. */
  lemma TranscriptCapReached(existing: seq<UploadFile>, picked: seq<UploadFile>)
    requires |existing| == MaxTranscripts
    ensures UploadTranscripts(existing, picked).files == existing
  {
  }

  /** The names of picked `.pdf` files over the size limit, in order: one
      "File Too Large" notice each. */
  function OversizeNames(picked: seq<UploadFile>): (r: seq<string>)
    ensures |r| <= |picked|
    ensures forall n :: n in r <==> exists f :: f in picked && f.name == n && EndsWith(f.name, ".pdf") && f.size > MaxMaterialBytes
  {
    if picked == [] then []
    else
      var f := picked[0];
      var rest := OversizeNames(picked[1..]);
      assert picked == [f] + picked[1..];
      if EndsWith(f.name, ".pdf") && f.size > MaxMaterialBytes then [f.name] + rest else rest
  }

  /** What a material upload produces: the new list and the names of the
      files refused for their size. Files that are not `.pdf` are dropped
      without a notice. */
  datatype MaterialIntake = MaterialIntake(files: seq<UploadFile>, tooLarge: seq<string>)

  /** `handleMaterialUpload`: keep the picked `.pdf` files of at most 25 MiB,
      append them after the existing ones and keep the first three. */
  function UploadMaterials(existing: seq<UploadFile>, picked: seq<UploadFile>): (r: MaterialIntake)
    ensures |r.files| == Min(MaxMaterials, |existing| + |AcceptedMaterials(picked)|)
    ensures r.files == (existing + AcceptedMaterials(picked))[..|r.files|]
    ensures |existing| <= MaxMaterials ==> r.files[..|existing|] == existing
    ensures forall f :: f in r.files ==> f in existing || (f in picked && IsAcceptedMaterial(f))
    ensures |existing| + |AcceptedMaterials(picked)| <= MaxMaterials ==>
              r.files == existing + AcceptedMaterials(picked)
    ensures r.tooLarge == OversizeNames(picked)
  {
    var valid := AcceptedMaterials(picked);
    var all := existing + valid;
    var files := Take(all, MaxMaterials);
    assert forall f :: f in files ==> f in all;
    MaterialIntake(files, OversizeNames(picked))
  }

  /** An attached material is never over the size limit unless it was
      already attached. */
  lemma MaterialsWithinLimit(existing: seq<UploadFile>, picked: seq<UploadFile>)
    requires forall f :: f in existing ==> f.size <= MaxMaterialBytes
    ensures forall f :: f in UploadMaterials(existing, picked).files ==> f.size <= MaxMaterialBytes
  {
  }

  /** With three materials already attached, nothing more is accepted. */
  lemma MaterialCapReached(existing: seq<UploadFile>, picked: seq<UploadFile>)
    requires |existing| == MaxMaterials
    ensures UploadMaterials(existing, picked).files == existing
  {
  }

  /** The "Next" button is enabled once at least one topic is listed. */
  predicate CanProceed(topics: seq<string>) {
    |topics| > 0
  }

  /** Adding a topic never disables "Next", and adding one whose trimmed text
      is non-empty always enables it. */
  lemma ProceedAfterAdd(topics: seq<string>, input: string)
    ensures CanProceed(topics) ==> CanProceed(SubjectTopicInput.TopicsAfterAdd(topics, input))
    ensures Trim(input) != "" ==> CanProceed(SubjectTopicInput.TopicsAfterAdd(topics, input))
  {
  }

  /** Removing the only topic disables "Next" again. */
  lemma RemovingLastTopicBlocks(topic: string)
    ensures !CanProceed(SubjectTopicInput.TopicsAfterRemove([topic], topic))
  {
    var r := SubjectTopicInput.TopicsAfterRemove([topic], topic);
    assert multiset(r) == multiset{};
  }

  /** The step's own state. */
  class ContentInput {
    var newTopic: string
    var courseSearchOpen: bool

    constructor ()
      ensures newTopic == "" && !courseSearchOpen
    {
      newTopic := "";
      courseSearchOpen := false;
    }

    /** The topic field's `onChange`. */
    method SetNewTopic(text: string)
      modifies this
      ensures newTopic == text && courseSearchOpen == old(courseSearchOpen)
    {
      newTopic := text;
    }

    /** The picker's `onOpenChange`. */
    method SetCourseSearchOpen(open: bool)
      modifies this
      ensures courseSearchOpen == open && newTopic == old(newTopic)
    {
      courseSearchOpen := open;
    }

    /** `handleCourseSelect`: the list handed to `onCourseIdsChange`; the picker
        closes after "NA" and after any single-select choice, and stays as it
        was in multi-select mode. */
    method HandleCourseSelect(courseIds: seq<string>, value: string, assessmentType: string)
      returns (next: seq<string>)
      modifies this
      ensures next == SelectCourse(courseIds, value, assessmentType == ComprehensiveType)
      ensures courseSearchOpen == if value == NoCourse || assessmentType != ComprehensiveType then false
                                  else old(courseSearchOpen)
      ensures newTopic == old(newTopic)
    {
      if value == NoCourse {
        next := [NoCourse];
        courseSearchOpen := false;
        return;
      }
      if assessmentType != ComprehensiveType {
        next := [value];
        courseSearchOpen := false;
      } else {
        var filtered := RemoveAll(courseIds, NoCourse);
        if value in filtered {
          next := RemoveAll(filtered, value);
        } else {
          next := filtered + [value];
        }
      }
    }

    /** `addTopic`: the list handed to `onTopicsChange` (the old list when
        nothing is added); the field is cleared only when the topic is added. */
    method AddTopic(topics: seq<string>) returns (next: seq<string>)
      modifies this
      ensures next == SubjectTopicInput.TopicsAfterAdd(topics, old(newTopic))
      ensures newTopic == if SubjectTopicInput.CanAddTopic(topics, old(newTopic)) then "" else old(newTopic)
      ensures courseSearchOpen == old(courseSearchOpen)
    {
      var trimmed := Trim(newTopic);
      if trimmed != "" && trimmed !in topics {
        next := topics + [trimmed];
        newTopic := "";
      } else {
        next := topics;
      }
    }
  }
}
