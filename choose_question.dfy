/**
  The question board. Its labels are built from the bank (a category label per
  category, a question label per regular question of it); on `create` every
  question label is switched on or off by whether its question has been won,
  and a category label is switched off when all its questions have been.
*/
module ChooseQuestion {
  import opened Wrappers
  import opened Questions

  /** A question label carries its category and the question text it stands for. */
  datatype QuestionLabel = QuestionLabel(category: string, question: string)

  /** A label's interactivity: as the board was built (not interactive), or as
      `enableInteraction` / `disableInteraction` last left it. */
  datatype Interaction = AsBuilt | Enabled | Disabled

  /** `question.winner` is truthy: a winner's name that is not empty. */
  predicate HasWinner(q: Question) {
    q.winner.Some? && q.winner.value != ""
  }

  /** The bank's `getQuestionByCategoryAndQuestion` for a label, searched entry by entry. */
  function Lookup(data: seq<Question>, l: QuestionLabel): Option<Question> {
    if data == [] then None
    else if Matches(data[0], l.category, l.question) then Some(data[0])
    else Lookup(data[1..], l)
  }

  lemma {:induction false} LookupIsBankLookup(data: seq<Question>, l: QuestionLabel)
    ensures Lookup(data, l) == QuestionByCategoryAndQuestion(data, l.category, l.question)
  {
    var r := QuestionByCategoryAndQuestion(data, l.category, l.question);
    if data != [] {
      if Matches(data[0], l.category, l.question) {
        assert data[0] in data;
        var k :| 0 <= k < |data| && data[k] == r.value && Matches(data[k], l.category, l.question) &&
                 forall j :: 0 <= j < k ==> !Matches(data[j], l.category, l.question);
        assert k == 0;
      } else {
        LookupIsBankLookup(data[1..], l);
        var rest := data[1..];
        var r' := QuestionByCategoryAndQuestion(rest, l.category, l.question);
        assert data == [data[0]] + rest;
        if r.Some? {
          var k :| 0 <= k < |data| && data[k] == r.value && Matches(data[k], l.category, l.question) &&
                   forall j :: 0 <= j < k ==> !Matches(data[j], l.category, l.question);
          assert rest[k - 1] in rest;
          var k' :| 0 <= k' < |rest| && rest[k'] == r'.value && Matches(rest[k'], l.category, l.question) &&
                    forall j :: 0 <= j < k' ==> !Matches(rest[j], l.category, l.question);
          assert rest[k'] == data[k' + 1];
        }
      }
    }
  }

  /** The label's question is in the bank. */
  predicate Found(data: seq<Question>, l: QuestionLabel) {
    Lookup(data, l).Some?
  }

  /** The label's question is in the bank and has been won. */
  predicate Answered(data: seq<Question>, l: QuestionLabel) {
    Found(data, l) && HasWinner(Lookup(data, l).value)
  }

  /** What `create` does to a question label whose question was found. */
  function LabelInteraction(data: seq<Question>, l: QuestionLabel): Interaction {
    if Answered(data, l) then Disabled else Enabled
  }

  /** Every question label of category `c` has been won (true when it has none). */
  predicate AllAnswered(data: seq<Question>, labels: seq<QuestionLabel>, c: string) {
    forall j :: 0 <= j < |labels| && labels[j].category == c ==> Answered(data, labels[j])
  }

  /** A category without question labels counts as fully answered. */
  lemma EmptyCategoryClosed(data: seq<Question>, labels: seq<QuestionLabel>, c: string)
    requires forall j :: 0 <= j < |labels| ==> labels[j].category != c
    ensures AllAnswered(data, labels, c)
  {
  }

  // ------------------------------------------------------- the built board

  /** The labels of the questions `qs`, in order. */
  function LabelsOf(qs: seq<Question>): (ls: seq<QuestionLabel>)
    ensures |ls| == |qs|
    ensures forall k :: 0 <= k < |qs| ==> ls[k] == QuestionLabel(qs[k].category, qs[k].question)
  {
    seq(|qs|, k requires 0 <= k < |qs| => QuestionLabel(qs[k].category, qs[k].question))
  }

  /** The question labels the board creator adds, category after category. */
  function BoardLabels(data: seq<Question>, cs: seq<string>): seq<QuestionLabel> {
    if cs == [] then [] else LabelsOf(QuestionsByCategory(data, cs[0])) + BoardLabels(data, cs[1..])
  }

  /** Every label built from the bank finds its question there, so on a board built
      from the bank `create` never meets "Question not found". */
  lemma {:induction false} BoardLabelsFound(data: seq<Question>, cs: seq<string>)
    ensures forall l :: l in BoardLabels(data, cs) ==> Found(data, l)
  {
    if cs != [] {
      BoardLabelsFound(data, cs[1..]);
      var qs := QuestionsByCategory(data, cs[0]);
      forall l | l in LabelsOf(qs) ensures Found(data, l) {
        var k :| 0 <= k < |qs| && LabelsOf(qs)[k] == l;
        assert qs[k] in qs;
        assert Matches(qs[k], l.category, l.question);
        LookupIsBankLookup(data, l);
      }
    }
  }

  // ----------------------------------------------------------------- scene

  class ChooseQuestionScene {
    const categoryLabels: seq<string>
    const questionLabels: seq<QuestionLabel>
    var categoryState: seq<Interaction>
    var questionState: seq<Interaction>

    ghost predicate Valid()
      reads this
    {
      |categoryState| == |categoryLabels| && |questionState| == |questionLabels|
    }

    /** The board as the creator leaves it: no label is interactive yet. */
    constructor (categoryLabels: seq<string>, questionLabels: seq<QuestionLabel>)
      ensures Valid()
      ensures this.categoryLabels == categoryLabels && this.questionLabels == questionLabels
      ensures forall i :: 0 <= i < |categoryState| ==> categoryState[i] == AsBuilt
      ensures forall j :: 0 <= j < |questionState| ==> questionState[j] == AsBuilt
    {
      this.categoryLabels := categoryLabels;
      this.questionLabels := questionLabels;
      categoryState := seq(|categoryLabels|, _ => AsBuilt);
      questionState := seq(|questionLabels|, _ => AsBuilt);
    }

    /** The loop of `create`: for each category label, each question label of that
        category is looked up in the bank and enabled unless won; the category is
        disabled when all were won. `notFound` is the "Question not found" error,
        raised exactly when some visited label is missing from the bank. */
    method Create(data: seq<Question>) returns (notFound: bool)
      requires Valid()
      modifies this
      ensures Valid()
      ensures notFound <==>
        exists j :: 0 <= j < |questionLabels| && questionLabels[j].category in categoryLabels &&
                    !Found(data, questionLabels[j])
      ensures !notFound ==> forall j :: 0 <= j < |questionLabels| ==>
        questionState[j] == if questionLabels[j].category in categoryLabels
                            then LabelInteraction(data, questionLabels[j]) else old(questionState[j])
      ensures !notFound ==> forall i :: 0 <= i < |categoryLabels| ==>
        categoryState[i] == if AllAnswered(data, questionLabels, categoryLabels[i])
                            then Disabled else old(categoryState[i])
    {
      var i := 0;
      while i < |categoryLabels|
        invariant 0 <= i <= |categoryLabels| && Valid()
        invariant forall j :: 0 <= j < |questionLabels| && questionLabels[j].category in categoryLabels[..i] ==>
                    Found(data, questionLabels[j])
        invariant forall j :: 0 <= j < |questionLabels| ==>
                    questionState[j] == if questionLabels[j].category in categoryLabels[..i]
                                        then LabelInteraction(data, questionLabels[j]) else old(questionState[j])
        invariant forall k :: 0 <= k < |categoryLabels| ==>
                    categoryState[k] == if k < i && AllAnswered(data, questionLabels, categoryLabels[k])
                                        then Disabled else old(categoryState[k])
      {
        var category := categoryLabels[i];
        var allAnswered;
        notFound, allAnswered := SetUpCategory(data, category);
        if notFound {
          return;
        }
        if allAnswered {
          categoryState := categoryState[i := Disabled];
        }
        assert categoryLabels[..i + 1] == categoryLabels[..i] + [category];
        i := i + 1;
      }
      assert categoryLabels[..i] == categoryLabels;
      notFound := false;
    }

    /** The inner loop of `create` for one category: its question labels, in board
        order, each enabled or disabled by its question's winner, stopping at the
        first that the bank does not hold. */
    method SetUpCategory(data: seq<Question>, category: string) returns (notFound: bool, allAnswered: bool)
      requires Valid()
      modifies this
      ensures Valid() && categoryState == old(categoryState)
      ensures notFound <==>
        exists j :: 0 <= j < |questionLabels| && questionLabels[j].category == category &&
                    !Found(data, questionLabels[j])
      ensures !notFound ==> allAnswered == AllAnswered(data, questionLabels, category)
      ensures !notFound ==> forall j :: 0 <= j < |questionLabels| ==>
        questionState[j] == if questionLabels[j].category == category
                            then LabelInteraction(data, questionLabels[j]) else old(questionState[j])
    {
      var labels, states := questionLabels, questionState;
      allAnswered := true;
      var j := 0;
      while j < |labels|
        invariant 0 <= j <= |labels| && |states| == |labels|
        invariant categoryState == old(categoryState) && questionState == old(questionState)
        invariant forall k :: 0 <= k < j && labels[k].category == category ==> Found(data, labels[k])
        invariant allAnswered <==>
                    forall k :: 0 <= k < j && labels[k].category == category ==> Answered(data, labels[k])
        invariant forall k :: 0 <= k < |labels| ==>
                    states[k] == if k < j && labels[k].category == category
                                 then LabelInteraction(data, labels[k]) else old(questionState[k])
      {
        var ql := labels[j];
        if ql.category == category {
          var question := QuestionByCategoryAndQuestion(data, category, ql.question);
          LookupIsBankLookup(data, ql);
          if question.None? {
            assert !Found(data, questionLabels[j]);
            questionState := states;
            return true, allAnswered;
          }
          if HasWinner(question.value) {
            states := states[j := Disabled];
          } else {
            states := states[j := Enabled];
            allAnswered := false;
          }
        }
        j := j + 1;
      }
      questionState := states;
      notFound := false;
    }

    /** `question-selected`, fired by clicking an enabled question label: the event
        carries the label's question, and every question label is disabled. */
    method SelectQuestion(data: seq<Question>, j: nat) returns (selected: Option<Question>)
      requires Valid() && j < |questionLabels| && questionState[j] == Enabled
      modifies this
      ensures Valid() && categoryState == old(categoryState)
      ensures selected == Lookup(data, questionLabels[j])
      ensures forall k :: 0 <= k < |questionState| ==> questionState[k] == Disabled
    {
      selected := QuestionByCategoryAndQuestion(data, questionLabels[j].category, questionLabels[j].question);
      LookupIsBankLookup(data, questionLabels[j]);
      questionState := seq(|questionLabels|, _ => Disabled);
    }
  }

  /** On a board built from the bank, `create` succeeds, enables exactly the labels
      whose questions have no winner, and closes exactly the fully answered categories. */
  method CreateBoardFromBank(data: seq<Question>) returns (scene: ChooseQuestionScene)
    ensures scene.Valid() && scene.categoryLabels == Categories(data)
    ensures scene.questionLabels == BoardLabels(data, Categories(data))
    ensures forall j :: 0 <= j < |scene.questionLabels| ==>
      (scene.questionState[j] == Enabled <==> !Answered(data, scene.questionLabels[j]))
    ensures forall i :: 0 <= i < |scene.categoryLabels| ==>
      (scene.categoryState[i] == Disabled <==> AllAnswered(data, scene.questionLabels, scene.categoryLabels[i]))
  {
    var cs := Categories(data);
    var labels := BoardLabels(data, cs);
    scene := new ChooseQuestionScene(cs, labels);
    BoardLabelsFound(data, cs);
    BoardLabelCategories(data, cs);
    assert forall j :: 0 <= j < |labels| ==> labels[j] in labels;
    var notFound := scene.Create(data);
  }

  /** Each label of the built board belongs to one of the categories it was built for. */
  lemma {:induction false} BoardLabelCategories(data: seq<Question>, cs: seq<string>)
    ensures forall l :: l in BoardLabels(data, cs) ==> l.category in cs
  {
    if cs != [] {
      BoardLabelCategories(data, cs[1..]);
      var qs := QuestionsByCategory(data, cs[0]);
      forall l | l in LabelsOf(qs) ensures l.category == cs[0] {
        var k :| 0 <= k < |qs| && LabelsOf(qs)[k] == l;
        assert qs[k] in qs;
      }
    }
  }
}
