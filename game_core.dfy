/**
  `GameCore.questions`: the shared question bank, loaded at start-up with a fixed
  list of thirty board questions in six categories.
*/
module GameCore {
  import opened Wrappers
  import opened Seqs
  import opened Questions
  import Draws

  /** An entry written without `winner` or `isFinalJeopardy`. */
  function Q(category: string, question: string, answer: string, price: int): Question {
    Question(category, question, answer, price, None, false)
  }

  const Capitals: seq<Question> := [
    Q("CAPITALS", "What is the capital of France?", "Paris", 400),
    Q("CAPITALS", "What is the capital of Spain?", "Madrid", 800),
    Q("CAPITALS", "What is the capital of Germany?", "Berlin", 1200),
    Q("CAPITALS", "What is the capital of Italy?", "Rome", 1600),
    Q("CAPITALS", "What is the capital of the United States?", "Washington, D.C.", 2000)]

  const Sports: seq<Question> := [
    Q("SPORTS", "What is the name of the most popular player in the Argentina?", "Lionel Messi", 400),
    Q("SPORTS", "What is the name of the most popular player in the Brazil?", "Ronaldo", 800),
    Q("SPORTS", "What is the name of the most popular player in the Portugal?", "Cristiano Ronaldo", 1200),
    Q("SPORTS", "What is the name of the most popular player in the Spain?", "Raul Gonzalez", 1600),
    Q("SPORTS", "What is the name of the most popular player in the France?", "Kylian Mbappe", 2000)]

  const CinemaTv: seq<Question> := [
    Q("CINEMA/TV", "What is the name of a serie about a man with cancer and make drugs?", "Breaking Bad", 400),
    Q("CINEMA/TV", "What is the name of a movie about a man can fly, shoot laser beams with his eyes and is stronger than a human?", "Superman", 800),
    Q("CINEMA/TV", "What is the name of a TV show about a man with a superpower to run at super speed?", "The Flash", 1200),
    Q("CINEMA/TV", "What is the name of a movie about a ship diving in the ocean?", "Titanic", 1600),
    Q("CINEMA/TV", "What is the name of a serie about a girl playing chess?", "Queen Gambit", 2000)]

  const Colors: seq<Question> := [
    Q("COLORS", "What is the color of the sky?", "Blue", 400),
    Q("COLORS", "What is the color of the sun?", "Yellow", 800),
    Q("COLORS", "What color you get when you mix red and yellow?", "Orange", 1200),
    Q("COLORS", "What color you get when you mix blue and red?", "Purple", 1600),
    Q("COLORS", "What color you get when you mix yellow and blue?", "Green", 2000)]

  const Animals: seq<Question> := [
    Q("ANIMALS", "What is the name of the most popular animal in the world?", "Dog", 400),
    Q("ANIMALS", "What is the name of the most popular animal in the world?", "Dog", 800),
    Q("ANIMALS", "What is the name of the most popular animal in the world?", "Dog", 1200),
    Q("ANIMALS", "What is the name of the most popular animal in the world?", "Dog", 1600),
    Q("ANIMALS", "What is the name of the most popular animal in the world?", "Dog", 2000)]

  const Food: seq<Question> := [
    Q("FOOD", "What is the name of the most popular food in the world?", "Pizza", 400),
    Q("FOOD", "What is the name of the most popular food in the world?", "Pizza", 800),
    Q("FOOD", "What is the name of the most popular food in the world?", "Pizza", 1200),
    Q("FOOD", "What is the name of the most popular food in the world?", "Pizza", 1600),
    Q("FOOD", "What is the name of the most popular food in the world?", "Pizza", 2000)]


  /** `GameCore.questions` after module load: a fresh bank holding the seeded list. */
  method LoadQuestions() returns (bank: QuestionsModel)
    ensures fresh(bank) && bank.data == SeedQuestions
  {
    bank := new QuestionsModel();
    bank.SetQuestions(SeedQuestions);
  }

  const Ladder: seq<int> := [400, 800, 1200, 1600, 2000]

  /** `questions.map(q => q.price)` */
  function Prices(qs: seq<Question>): (ps: seq<int>)
    ensures |ps| == |qs| && forall k :: 0 <= k < |qs| ==> ps[k] == qs[k].price
  {
    if qs == [] then [] else [qs[0].price] + Prices(qs[1..])
  }

  /** Five unanswered regular questions of category `c`, priced up the ladder. */
  predicate IsBlock(b: seq<Question>, c: string) {
    |b| == 5 && Prices(b) == Ladder &&
    forall q :: q in b ==> q.category == c && !q.isFinalJeopardy && q.winner.None?
  }

  lemma CapitalsBlock() ensures IsBlock(Capitals, "CAPITALS") { }
  lemma SportsBlock() ensures IsBlock(Sports, "SPORTS") { }
  lemma CinemaTvBlock() ensures IsBlock(CinemaTv, "CINEMA/TV") { }
  lemma ColorsBlock() ensures IsBlock(Colors, "COLORS") { }
  lemma AnimalsBlock() ensures IsBlock(Animals, "ANIMALS") { }
  lemma FoodBlock() ensures IsBlock(Food, "FOOD") { }


  lemma BlockCategories(b: seq<Question>, c: string, seen: seq<string>)
    requires IsBlock(b, c)
    ensures DistinctFrom(CategoryList(b), seen) == if c in seen then [] else [c]
  {
    var cs := CategoryList(b);
    assert cs[0] in cs;
    DistinctFromRun(cs, c, seen);
  }

  /** Appending a block of a new category to a bank adds that category at the end. */
  lemma AppendBlock(p: seq<Question>, b: seq<Question>, c: string, cats: seq<string>)
    requires IsBlock(b, c)
    requires Distinct(CategoryList(p)) == cats && c !in cats
    ensures Distinct(CategoryList(p + b)) == cats + [c]
  {
    CategoryListAppend(p, b);
    DistinctFromAppend(CategoryList(p), CategoryList(b), []);
    assert [] + CategoryList(p) == CategoryList(p);
    BlockCategories(b, c, CategoryList(p));
  }

  /** The blocks laid end to end. */
  function Flatten(bs: seq<seq<Question>>): seq<Question> {
    if bs == [] then [] else Flatten(bs[..|bs| - 1]) + bs[|bs| - 1]
  }

  /** `categories` of a bank made of blocks of distinct categories: one name per block, in order. */
  lemma {:induction false} BlocksCategories(bs: seq<seq<Question>>, names: seq<string>)
    requires |bs| == |names| && NoDup(names)
    requires forall i :: 0 <= i < |bs| ==> IsBlock(bs[i], names[i])
    ensures Distinct(CategoryList(Flatten(bs))) == names
  {
    if bs != [] {
      var n := |bs| - 1;
      BlocksCategories(bs[..n], names[..n]);
      AppendBlock(Flatten(bs[..n]), bs[n], names[n], names[..n]);
      assert names[..n] + [names[n]] == names;
    }
  }

  const SeedBlocks: seq<seq<Question>> := [Capitals, Sports, CinemaTv, Colors, Animals, Food]

  const SeedCategoryNames: seq<string> := ["CAPITALS", "SPORTS", "CINEMA/TV", "COLORS", "ANIMALS", "FOOD"]

  /** The list passed to `setQuestions` at module load, category after category. */
  const SeedQuestions: seq<Question> := Flatten(SeedBlocks)

  lemma SeedBlocksAreBlocks()
    ensures |SeedBlocks| == |SeedCategoryNames| == 6 && NoDup(SeedCategoryNames)
    ensures forall i :: 0 <= i < |SeedBlocks| ==> IsBlock(SeedBlocks[i], SeedCategoryNames[i])
  {
    SeedNamesDistinct();
    CapitalsBlock();
    SportsBlock();
    CinemaTvBlock();
    ColorsBlock();
    AnimalsBlock();
    FoodBlock();
    SixBlocks(Capitals, Sports, CinemaTv, Colors, Animals, Food,
              "CAPITALS", "SPORTS", "CINEMA/TV", "COLORS", "ANIMALS", "FOOD");
  }

  lemma SixBlocks(b0: seq<Question>, b1: seq<Question>, b2: seq<Question>,
                  b3: seq<Question>, b4: seq<Question>, b5: seq<Question>,
                  n0: string, n1: string, n2: string, n3: string, n4: string, n5: string)
    requires IsBlock(b0, n0) && IsBlock(b1, n1) && IsBlock(b2, n2)
    requires IsBlock(b3, n3) && IsBlock(b4, n4) && IsBlock(b5, n5)
    ensures var bs := [b0, b1, b2, b3, b4, b5]; var ns := [n0, n1, n2, n3, n4, n5];
            forall i :: 0 <= i < 6 ==> IsBlock(bs[i], ns[i])
  {
  }

  lemma SeedNamesDistinct()
    ensures NoDup(SeedCategoryNames)
  {
  }

  /** A bank of blocks has five unanswered regular entries per block. */
  lemma {:induction false} BlocksShape(bs: seq<seq<Question>>, names: seq<string>)
    requires |bs| == |names|
    requires forall i :: 0 <= i < |bs| ==> IsBlock(bs[i], names[i])
    ensures |Flatten(bs)| == 5 * |bs|
    ensures forall q :: q in Flatten(bs) ==> !q.isFinalJeopardy && q.winner.None?
  {
    if bs != [] {
      var n := |bs| - 1;
      BlocksShape(bs[..n], names[..n]);
      assert IsBlock(bs[n], names[n]);
    }
  }

  /** The seeded bank has thirty entries, none of them Final Jeopardy and none answered. */
  lemma SeedShape()
    ensures |SeedQuestions| == 30
    ensures forall q :: q in SeedQuestions ==> !q.isFinalJeopardy && q.winner.None?
  {
    SeedBlocksAreBlocks();
    BlocksShape(SeedBlocks, SeedCategoryNames);
  }

  /** `categories` and `categoriesCount` of the seeded bank. */
  lemma SeedCategories()
    ensures Categories(SeedQuestions) == SeedCategoryNames
    ensures CategoriesCount(SeedQuestions) == 6
  {
    SeedShape();
    FilterAll(SeedQuestions, IsRegular);
    SeedBlocksAreBlocks();
    BlocksCategories(SeedBlocks, SeedCategoryNames);
  }

  // ------------------------------------------------ per-category accessors

  lemma BlockByCategory(b: seq<Question>, c: string, other: string)
    requires IsBlock(b, c)
    ensures QuestionsByCategory(b, other) == if c == other then b else []
  {
    if c == other {
      FilterAll(b, q => InCategory(q, other));
    } else {
      FilterNone(b, q => InCategory(q, other));
    }
  }

  /** In a bank of blocks, the questions of a category are exactly its block. */
  lemma {:induction false} BlocksByCategory(bs: seq<seq<Question>>, names: seq<string>, c: string)
    requires |bs| == |names| && NoDup(names)
    requires forall i :: 0 <= i < |bs| ==> IsBlock(bs[i], names[i])
    ensures forall k :: 0 <= k < |bs| && names[k] == c ==> QuestionsByCategory(Flatten(bs), c) == bs[k]
    ensures c !in names ==> QuestionsByCategory(Flatten(bs), c) == []
  {
    if bs != [] {
      var n := |bs| - 1;
      BlocksByCategory(bs[..n], names[..n], c);
      ByCategoryAppend(Flatten(bs[..n]), bs[n], c);
      BlockByCategory(bs[n], names[n], c);
      if c == names[n] {
        assert c !in names[..n];
      }
    }
  }

  lemma BlockLookup(b: seq<Question>, c: string, other: string, text: string)
    requires IsBlock(b, c) && c != other
    ensures QuestionByCategoryAndQuestion(b, other, text) == None
  {
  }

  /** In a bank of blocks, looking up a category's question searches only its block. */
  lemma {:induction false} BlocksLookup(bs: seq<seq<Question>>, names: seq<string>, k: nat, text: string)
    requires |bs| == |names| && NoDup(names) && k < |bs|
    requires forall i :: 0 <= i < |bs| ==> IsBlock(bs[i], names[i])
    ensures QuestionByCategoryAndQuestion(Flatten(bs), names[k], text)
            == QuestionByCategoryAndQuestion(bs[k], names[k], text)
  {
    var n := |bs| - 1;
    var c := names[k];
    var front := bs[..n];
    LookupAppend(Flatten(front), bs[n], c, text);
    if k == n {
      assert c !in names[..n];
      BlocksLookupMissing(front, names[..n], c, text);
    } else {
      assert front[k] == bs[k] && names[..n][k] == c;
      BlocksLookup(front, names[..n], k, text);
      BlockLookup(bs[n], names[n], c, text);
    }
  }

  /** A category with no block is not found. */
  lemma {:induction false} BlocksLookupMissing(bs: seq<seq<Question>>, names: seq<string>, c: string, text: string)
    requires |bs| == |names| && c !in names
    requires forall i :: 0 <= i < |bs| ==> IsBlock(bs[i], names[i])
    ensures QuestionByCategoryAndQuestion(Flatten(bs), c, text) == None
  {
    if bs != [] {
      var n := |bs| - 1;
      assert names[n] in names;
      assert names[..n] <= names;
      BlocksLookupMissing(bs[..n], names[..n], c, text);
      LookupAppend(Flatten(bs[..n]), bs[n], c, text);
      BlockLookup(bs[n], names[n], c, text);
    }
  }

  /** A block whose five entries share one text: the lookup always yields its first entry. */
  lemma SharedTextLookup(b: seq<Question>, c: string, shared: string, text: string)
    requires IsBlock(b, c) && forall q :: q in b ==> q.question == shared
    ensures QuestionByCategoryAndQuestion(b, c, text) == if text == shared then Some(b[0]) else None
  {
    assert b[0] in b;
  }

  /** Within every seeded category, the questions come in bank order priced 400 to 2000;
      any other category has none. */
  lemma SeedByCategory(c: string)
    ensures forall k :: 0 <= k < 6 && SeedCategoryNames[k] == c ==>
      QuestionsByCategory(SeedQuestions, c) == SeedBlocks[k] && Prices(QuestionsByCategory(SeedQuestions, c)) == Ladder
    ensures c !in SeedCategoryNames ==> QuestionsByCategory(SeedQuestions, c) == []
    ensures QuestionsCountByCategory(SeedQuestions, c) == if c in SeedCategoryNames then 5 else 0
  {
    SeedBlocksAreBlocks();
    BlocksByCategory(SeedBlocks, SeedCategoryNames, c);
  }

  /** `getQuestionsMaxCount` of the seeded bank. */
  lemma SeedMaxCount()
    ensures QuestionsMaxCount(SeedQuestions) == Some(5)
  {
    SeedCategories();
    SeedShape();
    assert SeedQuestions[0] in SeedQuestions;
    FilterAll(SeedQuestions, IsRegular);
    forall c | c in Categories(SeedQuestions) ensures QuestionsCountByCategory(SeedQuestions, c) == 5 {
      SeedByCategory(c);
    }
    UniformMaxCount(SeedQuestions, 5);
  }

  /** When every category has `n` questions, the largest count is `n`. */
  lemma UniformMaxCount(data: seq<Question>, n: int)
    requires RegularQuestions(data) != []
    requires forall c :: c in Categories(data) ==> QuestionsCountByCategory(data, c) == n
    ensures QuestionsMaxCount(data) == Some(n)
  {
  }

  /** The seeded bank has no Final-Jeopardy entry: its Final-Jeopardy accessors are empty
      and the random pick is `None` (null) for every draw. */
  lemma SeedFinalJeopardy(r: real)
    requires Draws.IsDraw(r)
    ensures FinalJeopardyQuestions(SeedQuestions) == []
    ensures FinalJeopardyCategories(SeedQuestions) == []
    ensures RandomFinalJeopardyQuestion(SeedQuestions, r) == None
  {
    SeedShape();
    FilterNone(SeedQuestions, IsFinal);
  }

  const AnimalsText: string := "What is the name of the most popular animal in the world?"
  const FoodText: string := "What is the name of the most popular food in the world?"

  lemma AnimalsShareText() ensures forall q :: q in Animals ==> q.question == AnimalsText { }
  lemma FoodShareText() ensures forall q :: q in Food ==> q.question == FoodText { }

  /** ANIMALS and FOOD repeat one text five times, so the lookup by (category, text)
      can only ever return their 400 entry. */
  lemma SeedRepeatedTextLookup(text: string)
    ensures QuestionByCategoryAndQuestion(SeedQuestions, "ANIMALS", text) ==
            if text == AnimalsText then Some(Animals[0]) else None
    ensures QuestionByCategoryAndQuestion(SeedQuestions, "FOOD", text) ==
            if text == FoodText then Some(Food[0]) else None
    ensures Animals[0].price == 400 && Food[0].price == 400
  {
    SeedBlocksAreBlocks();
    BlocksLookup(SeedBlocks, SeedCategoryNames, 4, text);
    BlocksLookup(SeedBlocks, SeedCategoryNames, 5, text);
    AnimalsShareText();
    FoodShareText();
    SharedTextLookup(Animals, "ANIMALS", AnimalsText, text);
    SharedTextLookup(Food, "FOOD", FoodText, text);
  }
}
