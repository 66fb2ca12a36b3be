/**
  The question bank (`QuestionsModel`): a flat list of questions in which the
  Final-Jeopardy entries are kept apart from the regular board questions.
  The bank object only holds the list; every accessor is a pure function of it.
*/
module Questions {
  import opened Wrappers
  import opened Seqs
  import Draws

  /** One entry of the bank; `winner` and `isFinalJeopardy` are optional in the source,
      an absent flag reading as `false`. */
  datatype Question = Question(
    category: string,
    question: string,
    answer: string,
    price: int,
    winner: Option<string>,
    isFinalJeopardy: bool)

  predicate IsRegular(q: Question) {
    !q.isFinalJeopardy
  }

  predicate IsFinal(q: Question) {
    q.isFinalJeopardy
  }

  /** A regular question of the given category. */
  predicate InCategory(q: Question, category: string) {
    q.category == category && !q.isFinalJeopardy
  }

  /** A regular question of the given category with the given text. */
  predicate Matches(q: Question, category: string, text: string) {
    q.category == category && q.question == text && !q.isFinalJeopardy
  }

  class QuestionsModel {
    var data: seq<Question>

    constructor ()
      ensures data == []
    {
      data := [];
    }

    /** `setQuestions` replaces the whole list. */
    method SetQuestions(questions: seq<Question>)
      modifies this
      ensures data == questions
    {
      data := questions;
    }
  }

  /** `questions.map(q => q.category)` */
  function CategoryList(qs: seq<Question>): (cs: seq<string>)
    ensures |cs| == |qs|
    ensures forall k :: 0 <= k < |qs| ==> cs[k] == qs[k].category
  {
    if qs == [] then [] else [qs[0].category] + CategoryList(qs[1..])
  }

  lemma {:induction false} CategoryListAppend(a: seq<Question>, b: seq<Question>)
    ensures CategoryList(a + b) == CategoryList(a) + CategoryList(b)
  {
    if a != [] {
      assert (a + b)[1..] == a[1..] + b;
      CategoryListAppend(a[1..], b);
    } else {
      assert a + b == b;
    }
  }

  lemma CategoryListMembership(qs: seq<Question>, c: string)
    ensures c in CategoryList(qs) <==> exists q :: q in qs && q.category == c
  {
    var cs := CategoryList(qs);
    if c in cs {
      var k :| 0 <= k < |cs| && cs[k] == c;
      assert qs[k] in qs;
    }
    if exists q :: q in qs && q.category == c {
      var q :| q in qs && q.category == c;
      var k :| 0 <= k < |qs| && qs[k] == q;
      assert cs[k] == c;
    }
  }

  /** `getRegularQuestions`: the entries that are not Final Jeopardy, in bank order. */
  function RegularQuestions(data: seq<Question>): (r: seq<Question>)
    ensures forall q :: q in r <==> q in data && !q.isFinalJeopardy
  {
    FilterMembers(data, IsRegular);
    Filter(data, IsRegular)
  }

  /** `getFinalJeopardyQuestions`: the Final-Jeopardy entries, in bank order. */
  function FinalJeopardyQuestions(data: seq<Question>): (r: seq<Question>)
    ensures forall q :: q in r <==> q in data && q.isFinalJeopardy
  {
    FilterMembers(data, IsFinal);
    Filter(data, IsFinal)
  }

  /** The regular and the Final-Jeopardy entries split the bank: every entry lands in
      exactly one of them, and appending to the bank appends to each part. */
  lemma {:induction false} RegularFinalPartition(data: seq<Question>)
    ensures |RegularQuestions(data)| + |FinalJeopardyQuestions(data)| == |data|
    ensures multiset(RegularQuestions(data)) + multiset(FinalJeopardyQuestions(data)) == multiset(data)
    ensures forall more: seq<Question> ::
      RegularQuestions(data + more) == RegularQuestions(data) + RegularQuestions(more) &&
      FinalJeopardyQuestions(data + more) == FinalJeopardyQuestions(data) + FinalJeopardyQuestions(more)
  {
    FilterPartition(data, IsRegular, IsFinal);
    forall more: seq<Question>
      ensures RegularQuestions(data + more) == RegularQuestions(data) + RegularQuestions(more)
      ensures FinalJeopardyQuestions(data + more) == FinalJeopardyQuestions(data) + FinalJeopardyQuestions(more)
    {
      FilterAppend(data, more, IsRegular);
      FilterAppend(data, more, IsFinal);
    }
  }

  /** `categories`: each category of a regular entry once, in order of first occurrence. */
  function Categories(data: seq<Question>): (r: seq<string>)
    ensures NoDup(r)
    ensures forall c :: c in r <==> exists q :: q in data && InCategory(q, c)
  {
    var cs := CategoryList(RegularQuestions(data));
    var r := Distinct(cs);
    assert forall c :: c in r <==> exists q :: q in data && InCategory(q, c) by {
      forall c ensures c in r <==> exists q :: q in data && InCategory(q, c) {
        CategoryListMembership(RegularQuestions(data), c);
      }
    }
    r
  }

  /** The categories come in the order in which they first appear among the regular entries. */
  lemma CategoriesOrder(data: seq<Question>)
    ensures var cs := CategoryList(RegularQuestions(data));
      forall i, j :: 0 <= i < j < |Categories(data)| ==>
        FirstIndex(cs, Categories(data)[i]) < FirstIndex(cs, Categories(data)[j])
  {
    DistinctFromOrder(CategoryList(RegularQuestions(data)), []);
  }

  /** `categoriesCount`: the size of the set of regular categories, which is the
      length of `categories`. */
  function CategoriesCount(data: seq<Question>): (n: nat)
    ensures n == |Categories(data)|
  {
    var s := set q | q in RegularQuestions(data) :: q.category;
    var r := Categories(data);
    assert s == set c | c in r;
    NoDupCardinality(r);
    |s|
  }

  /** `getQuestionsByCategory`: the regular entries of one category, in bank order. */
  function QuestionsByCategory(data: seq<Question>, category: string): (r: seq<Question>)
    ensures forall q :: q in r <==> q in data && InCategory(q, category)
  {
    FilterMembers(data, q => InCategory(q, category));
    Filter(data, q => InCategory(q, category))
  }

  /** The questions of a category keep bank order: those of `a` come before those of `b`. */
  lemma ByCategoryAppend(a: seq<Question>, b: seq<Question>, category: string)
    ensures QuestionsByCategory(a + b, category) == QuestionsByCategory(a, category) + QuestionsByCategory(b, category)
  {
    FilterAppend(a, b, q => InCategory(q, category));
  }

  /** `getQuestionsCountByCategory`: positive exactly for the listed categories. */
  function QuestionsCountByCategory(data: seq<Question>, category: string): (n: nat)
    ensures n == |QuestionsByCategory(data, category)|
    ensures n > 0 <==> category in Categories(data)
    ensures n <= |RegularQuestions(data)|
  {
    var r := QuestionsByCategory(data, category);
    assert |r| > 0 ==> r[0] in r;
    FilterOfFilter(data, IsRegular, q => InCategory(q, category));
    |r|
  }

  /** The count of each category in `cs`. */
  function CountsOf(data: seq<Question>, cs: seq<string>): (ns: seq<int>)
    ensures |ns| == |cs|
    ensures forall k :: 0 <= k < |cs| ==> ns[k] == QuestionsCountByCategory(data, cs[k])
  {
    if cs == [] then [] else [QuestionsCountByCategory(data, cs[0])] + CountsOf(data, cs[1..])
  }

  /** `getQuestionsMaxCount`, with `None` for the `-Infinity` of a bank without regular entries. */
  function QuestionsMaxCount(data: seq<Question>): (m: Option<int>)
    ensures m.None? <==> RegularQuestions(data) == []
    ensures m.Some? ==> forall c :: c in Categories(data) ==> QuestionsCountByCategory(data, c) <= m.value
    ensures m.Some? ==> exists c :: c in Categories(data) && QuestionsCountByCategory(data, c) == m.value
  {
    var cs := Categories(data);
    var ns := CountsOf(data, cs);
    assert RegularQuestions(data) != [] ==> cs != [] by {
      if RegularQuestions(data) != [] {
        var q := RegularQuestions(data)[0];
        assert q in RegularQuestions(data);
        assert q.category in cs;
      }
    }
    var m := Max(ns);
    assert m.Some? ==> exists c :: c in cs && QuestionsCountByCategory(data, c) == m.value by {
      if m.Some? {
        var k :| 0 <= k < |ns| && ns[k] == m.value;
        assert cs[k] in cs;
      }
    }
    m
  }

  /** `getQuestionByCategoryAndQuestion`: the first regular entry with that category and text. */
  function QuestionByCategoryAndQuestion(data: seq<Question>, category: string, text: string): (r: Option<Question>)
    ensures r.None? <==> forall q :: q in data ==> !Matches(q, category, text)
    ensures r.Some? ==> exists k :: 0 <= k < |data| && data[k] == r.value && Matches(data[k], category, text) &&
                                    forall j :: 0 <= j < k ==> !Matches(data[j], category, text)
  {
    Find(data, q => Matches(q, category, text))
  }

  /** The lookup in `a + b` finds the match of `a` when there is one, else that of `b`. */
  lemma LookupAppend(a: seq<Question>, b: seq<Question>, category: string, text: string)
    ensures QuestionByCategoryAndQuestion(a + b, category, text) ==
            if QuestionByCategoryAndQuestion(a, category, text).Some?
            then QuestionByCategoryAndQuestion(a, category, text)
            else QuestionByCategoryAndQuestion(b, category, text)
  {
    FindAppend(a, b, q => Matches(q, category, text));
  }

  /** The accessors of the regular board see only the regular entries: two banks with the
      same regular entries answer them all alike, whatever their Final-Jeopardy entries. */
  lemma {:induction false} RegularAccessorsIgnoreFinal(d1: seq<Question>, d2: seq<Question>, category: string, text: string)
    requires RegularQuestions(d1) == RegularQuestions(d2)
    ensures Categories(d1) == Categories(d2)
    ensures CategoriesCount(d1) == CategoriesCount(d2)
    ensures QuestionsByCategory(d1, category) == QuestionsByCategory(d2, category)
    ensures QuestionsCountByCategory(d1, category) == QuestionsCountByCategory(d2, category)
    ensures QuestionsMaxCount(d1) == QuestionsMaxCount(d2)
    ensures QuestionByCategoryAndQuestion(d1, category, text) == QuestionByCategoryAndQuestion(d2, category, text)
  {
    FilterOfFilter(d1, IsRegular, q => InCategory(q, category));
    FilterOfFilter(d2, IsRegular, q => InCategory(q, category));
    assert QuestionsByCategory(d1, category) == QuestionsByCategory(d2, category);
    forall c ensures QuestionsCountByCategory(d1, c) == QuestionsCountByCategory(d2, c) {
      FilterOfFilter(d1, IsRegular, q => InCategory(q, c));
      FilterOfFilter(d2, IsRegular, q => InCategory(q, c));
    }
    assert CountsOf(d1, Categories(d1)) == CountsOf(d2, Categories(d2));
    FindOfFilter(d1, category, text);
    FindOfFilter(d2, category, text);
  }

  /** Looking up in the whole bank is looking up among its regular entries. */
  lemma {:induction false} FindOfFilter(s: seq<Question>, category: string, text: string)
    ensures Find(s, q => Matches(q, category, text)) ==
            Find(Filter(s, IsRegular), q => Matches(q, category, text))
  {
    if s != [] {
      FindOfFilter(s[1..], category, text);
      if !IsRegular(s[0]) {
        assert Filter(s, IsRegular) == Filter(s[1..], IsRegular);
      } else {
        assert Filter(s, IsRegular) == [s[0]] + Filter(s[1..], IsRegular);
      }
    }
  }

  /** `getRandomFinalJeopardyQuestion` with `r` for `Math.random()`: `None` (null)
      exactly when there is no Final-Jeopardy entry, else the entry at `floor(r * n)`. */
  function RandomFinalJeopardyQuestion(data: seq<Question>, r: real): (q: Option<Question>)
    requires Draws.IsDraw(r)
    ensures q.None? <==> FinalJeopardyQuestions(data) == []
    ensures q.Some? ==> q.value in data && q.value.isFinalJeopardy
    ensures q.Some? ==> q.value == FinalJeopardyQuestions(data)[Draws.PickIndex(r, |FinalJeopardyQuestions(data)|)]
  {
    var finals := FinalJeopardyQuestions(data);
    if |finals| == 0 then None
    else
      var q := finals[Draws.PickIndex(r, |finals|)];
      assert q in finals;
      Some(q)
  }

  /** `getFinalJeopardyCategories`: each Final-Jeopardy category once. */
  function FinalJeopardyCategories(data: seq<Question>): (r: seq<string>)
    ensures NoDup(r)
    ensures forall c :: c in r <==> exists q :: q in data && q.isFinalJeopardy && q.category == c
  {
    var r := Distinct(CategoryList(FinalJeopardyQuestions(data)));
    assert forall c :: c in r <==> exists q :: q in data && q.isFinalJeopardy && q.category == c by {
      forall c ensures c in r <==> exists q :: q in data && q.isFinalJeopardy && q.category == c {
        CategoryListMembership(FinalJeopardyQuestions(data), c);
      }
    }
    r
  }
}
