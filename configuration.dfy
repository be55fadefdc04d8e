/** The configuration step: per-type question counts, Bloom's-taxonomy
    weights, and the gate on the "Generate Assessment" button. Every handler
    computes a new value and hands it to the page. */
module ConfigurationStep {
  import opened Common

  /** One row of the question-type table (the icon is left out). */
  datatype QuestionType = QuestionType(id: string, name: string, enabled: bool, count: int)

  /** The `id`s of the rows are pairwise distinct. */
  predicate DistinctTypeIds(types: seq<QuestionType>) {
    forall i, j :: 0 <= i < j < |types| ==> types[i].id != types[j].id
  }

  predicate CountsNonNegative(types: seq<QuestionType>) {
    forall i :: 0 <= i < |types| ==> types[i].count >= 0
  }

  /** `toggleQuestionType(id)`: flips `enabled` on the rows with that id. */
  function ToggleQuestionType(types: seq<QuestionType>, id: string): (r: seq<QuestionType>)
    ensures |r| == |types|
    ensures forall i :: 0 <= i < |types| ==>
              r[i] == if types[i].id == id then types[i].(enabled := !types[i].enabled) else types[i]
  {
    if types == [] then []
    else
      var t := types[0];
      [if t.id == id then t.(enabled := !t.enabled) else t] + ToggleQuestionType(types[1..], id)
  }

  /** Toggling the same type twice restores the table. */
  lemma ToggleTwice(types: seq<QuestionType>, id: string)
    ensures ToggleQuestionType(ToggleQuestionType(types, id), id) == types
  {
  }

  /** `updateQuestionCount(id, count)`: the rows with that id get
      `max(0, count)`, every other row and field is kept. */
  function UpdateQuestionCount(types: seq<QuestionType>, id: string, count: int): (r: seq<QuestionType>)
    ensures |r| == |types|
    ensures forall i :: 0 <= i < |types| ==>
              r[i] == if types[i].id == id then types[i].(count := if count < 0 then 0 else count) else types[i]
    ensures CountsNonNegative(types) ==> CountsNonNegative(r)
  {
    if types == [] then []
    else
      var t := types[0];
      [if t.id == id then t.(count := if count < 0 then 0 else count) else t]
        + UpdateQuestionCount(types[1..], id, count)
  }

  /** `totalQuestions`: the sum of the counts of the enabled rows. */
  function TotalQuestions(types: seq<QuestionType>): (total: int)
    ensures (forall i :: 0 <= i < |types| ==> !types[i].enabled) ==> total == 0
  {
    if types == [] then 0
    else (if types[0].enabled then types[0].count else 0) + TotalQuestions(types[1..])
  }

  /** The total only depends on enabled rows: a disabled row contributes
      nothing, whatever its count. */
  lemma {:induction false} TotalIgnoresDisabled(types: seq<QuestionType>, i: nat, count: int)
    requires i < |types| && !types[i].enabled
    ensures TotalQuestions(types[i := types[i].(count := count)]) == TotalQuestions(types)
  {
    if i > 0 {
      assert types[i := types[i].(count := count)][1..] == types[1..][i - 1 := types[i].(count := count)];
      TotalIgnoresDisabled(types[1..], i - 1, count);
    }
  }

  /** With non-negative counts the total is non-negative. */
  lemma {:induction false} TotalNonNegative(types: seq<QuestionType>)
    requires CountsNonNegative(types)
    ensures TotalQuestions(types) >= 0
  {
    if types != [] {
      assert CountsNonNegative(types[1..]) by {
        assert forall k :: 0 <= k < |types[1..]| ==> types[1..][k] == types[k + 1];
      }
      TotalNonNegative(types[1..]);
    }
  }

  /** The total is the sum over the rows; changing one row changes the total
      by that row's change in contribution. */
  lemma {:induction false} TotalAfterRowChange(types: seq<QuestionType>, i: nat, t: QuestionType)
    requires i < |types|
    ensures TotalQuestions(types[i := t])
            == TotalQuestions(types) - (if types[i].enabled then types[i].count else 0)
                                     + (if t.enabled then t.count else 0)
  {
    if i > 0 {
      assert types[i := t][1..] == types[1..][i - 1 := t];
      TotalAfterRowChange(types[1..], i - 1, t);
    }
  }

  /** With distinct ids, toggling a row adds its count to the total when it
      becomes enabled and takes it away when it becomes disabled. */
  lemma ToggleChangesTotal(types: seq<QuestionType>, i: nat)
    requires i < |types| && DistinctTypeIds(types)
    ensures TotalQuestions(ToggleQuestionType(types, types[i].id))
            == TotalQuestions(types) + (if types[i].enabled then -types[i].count else types[i].count)
  {
    var t := types[i];
    var flipped := t.(enabled := !t.enabled);
    var toggled := ToggleQuestionType(types, t.id);
    forall k | 0 <= k < |types| ensures toggled[k] == types[i := flipped][k] {
      if k != i {
        assert types[k].id != t.id;
      }
    }
    assert toggled == types[i := flipped];
    TotalAfterRowChange(types, i, flipped);
  }

  // ------------------------------------------------------------------ Bloom

  /** One Bloom level and its weight. The page keeps the weights in an object,
      whose keys keep their insertion order; here that is a list of entries
      with distinct levels. */
  datatype BloomEntry = BloomEntry(level: string, weight: int)

  type BloomValues = seq<BloomEntry>

  predicate DistinctLevels(b: BloomValues) {
    forall i, j :: 0 <= i < j < |b| ==> b[i].level != b[j].level
  }

  /** `bloomValues[level]`, `None` when the key is missing. */
  function Weight(b: BloomValues, level: string): (r: Option<int>)
    ensures r.Some? <==> exists i :: 0 <= i < |b| && b[i].level == level
    ensures r.Some? ==> exists i :: 0 <= i < |b| && b[i] == BloomEntry(level, r.value)
  {
    if b == [] then None
    else if b[0].level == level then Some(b[0].weight)
    else
      var r := Weight(b[1..], level);
      assert forall i :: 1 <= i < |b| ==> b[i] == b[1..][i - 1];
      r
  }

  /** `bloomTotal`: the sum of all weights. */
  function BloomTotal(b: BloomValues): (total: int)
    ensures (forall i :: 0 <= i < |b| ==> b[i].weight >= 0) ==>
              total >= 0 && forall i :: 0 <= i < |b| ==> b[i].weight <= total
  {
    if b == [] then 0 else b[0].weight + BloomTotal(b[1..])
  }

  /** `adjustBloomValue(level, delta)`: the value handed to `onBloomChange`, the
      current weight (0 when missing) plus `delta`, clamped to [0, 100]. */
  function AdjustBloomValue(b: BloomValues, level: string, delta: int): (v: int)
    ensures 0 <= v <= 100
    ensures var current := if Weight(b, level).Some? then Weight(b, level).value else 0;
            && (0 <= current + delta <= 100 ==> v == current + delta)
            && (current + delta < 0 ==> v == 0)
            && (current + delta > 100 ==> v == 100)
  {
    var current := match Weight(b, level) case Some(w) => w case None => 0;
    var sum := current + delta;
    if sum < 0 then 0 else if sum > 100 then 100 else sum
  }

  /** `disabled={isGenerating || totalQuestions === 0 || bloomTotal !== 100}`. */
  predicate GenerateDisabled(isGenerating: bool, types: seq<QuestionType>, b: BloomValues)
    ensures isGenerating ==> GenerateDisabled(isGenerating, types, b)
    ensures (forall i :: 0 <= i < |types| ==> !types[i].enabled) ==> GenerateDisabled(isGenerating, types, b)
    ensures (forall i :: 0 <= i < |b| ==> b[i].weight >= 0) && (exists i :: 0 <= i < |b| && b[i].weight > 100) ==>
              GenerateDisabled(isGenerating, types, b)
  {
    isGenerating || TotalQuestions(types) == 0 || BloomTotal(b) != 100
  }

  /** When the button is enabled the weights are balanced and, as long as no
      count is negative, at least one question is requested. */
  lemma GenerateEnabledMeans(isGenerating: bool, types: seq<QuestionType>, b: BloomValues)
    requires !GenerateDisabled(isGenerating, types, b) && CountsNonNegative(types)
    ensures !isGenerating && BloomTotal(b) == 100 && TotalQuestions(types) > 0
  {
    TotalNonNegative(types);
  }
}
