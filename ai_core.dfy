/**
  `AICore`: how a computer player answers, wagers, buzzes and picks a question.
  Every `Math.random()` draw is a parameter in [0, 1), named after its use.
*/
module AICore {
  import opened Wrappers
  import opened Questions
  import opened Players
  import opened Sorting
  import Draws

  // ------------------------------------------------------------- answering

  datatype AnswerSim = AnswerSim(willAnswer: bool, isCorrect: bool, responseTime: real)

  predicate IsKnownDifficulty(difficulty: string) {
    difficulty == "easy" || difficulty == "medium" || difficulty == "hard"
  }

  /** The chance of a right answer before the price adjustment; 0 for an unknown difficulty. */
  function BaseProbability(difficulty: string): (p: real)
    ensures 0.0 <= p < 1.0
    ensures p > 0.0 <==> IsKnownDifficulty(difficulty)
  {
    if difficulty == "easy" then 0.5
    else if difficulty == "medium" then 0.7
    else if difficulty == "hard" then 0.85
    else 0.0
  }

  /** The base chance scaled by `1 - price / 250 * 0.2`: it reaches 0 at a price of 1250
      and stays between 0 and the base chance for prices from 0 to 1250. */
  function CorrectProbability(difficulty: string, price: int): (p: real)
    ensures price >= 1250 ==> p <= 0.0
    ensures 0 <= price <= 1250 ==> 0.0 <= p <= BaseProbability(difficulty)
  {
    var factor := 1.0 - (price as real / 250.0) * 0.2;
    var base := BaseProbability(difficulty);
    assert price >= 1250 ==> base * factor <= 0.0 by {
      if price >= 1250 {
        assert factor <= 0.0;
        ProductNonPositive(base, factor);
      }
    }
    assert 0 <= price <= 1250 ==> 0.0 <= base * factor <= base by {
      if 0 <= price <= 1250 {
        assert 0.0 <= factor <= 1.0;
        ProductBetween(base, factor);
      }
    }
    base * factor
  }

  lemma ProductNonPositive(a: real, b: real)
    requires a >= 0.0 && b <= 0.0
    ensures a * b <= 0.0
  {
  }

  lemma ProductBetween(a: real, b: real)
    requires a >= 0.0 && 0.0 <= b <= 1.0
    ensures 0.0 <= a * b <= a
  {
    assert a * (1.0 - b) >= 0.0;
  }

  /** A dearer question is never easier to get right. */
  lemma {:induction false} DearerIsHarder(difficulty: string, price1: int, price2: int)
    requires price1 <= price2
    ensures CorrectProbability(difficulty, price2) <= CorrectProbability(difficulty, price1)
  {
    var base := BaseProbability(difficulty);
    var f1 := 1.0 - (price1 as real / 250.0) * 0.2;
    var f2 := 1.0 - (price2 as real / 250.0) * 0.2;
    assert f2 <= f1;
    assert base * (f1 - f2) >= 0.0;
  }

  /** At one price below 1250, harder computer players are likelier to be right. */
  lemma {:induction false} StrongerIsLikelier(price: int)
    requires price < 1250
    ensures CorrectProbability("easy", price) < CorrectProbability("medium", price) < CorrectProbability("hard", price)
  {
    var f := 1.0 - (price as real / 250.0) * 0.2;
    assert f > 0.0;
    assert 0.7 * f - 0.5 * f == 0.2 * f;
    assert 0.85 * f - 0.7 * f == 0.15 * f;
  }

  /** The thinking time: 2-3 s when easy, 1.5-2.5 s when medium, 1-2 s when hard, else 0. */
  function ResponseTime(difficulty: string, rTime: real): (t: real)
    requires Draws.IsDraw(rTime)
    ensures difficulty == "easy" ==> 2000.0 <= t < 3000.0
    ensures difficulty == "medium" ==> 1500.0 <= t < 2500.0
    ensures difficulty == "hard" ==> 1000.0 <= t < 2000.0
    ensures !IsKnownDifficulty(difficulty) ==> t == 0.0
  {
    if difficulty == "easy" then 2000.0 + rTime * 1000.0
    else if difficulty == "medium" then 1500.0 + rTime * 1000.0
    else if difficulty == "hard" then 1000.0 + rTime * 1000.0
    else 0.0
  }

  /** `simulateAIAnswer`: answers on 80% of draws whatever the question, is right with the
      scaled chance, and is never right on a question priced 1250 or more. */
  function SimulateAIAnswer(question: Question, difficulty: string, rTime: real, rWill: real, rCorrect: real): (a: AnswerSim)
    requires Draws.IsDraw(rTime) && Draws.IsDraw(rWill) && Draws.IsDraw(rCorrect)
    ensures a.willAnswer <==> rWill < 0.8
    ensures a.isCorrect <==> rCorrect < CorrectProbability(difficulty, question.price)
    ensures question.price >= 1250 ==> !a.isCorrect
    ensures !IsKnownDifficulty(difficulty) ==> !a.isCorrect && a.responseTime == 0.0
    ensures a.responseTime == ResponseTime(difficulty, rTime)
  {
    AnswerSim(rWill < 0.8, rCorrect < CorrectProbability(difficulty, question.price), ResponseTime(difficulty, rTime))
  }

  // --------------------------------------------------------------- wagering

  /** `wagerPercentage`: 30-50% when easy, 50-70% when medium, 70-100% when hard and close to
      the lead, 40-70% when hard and behind, 0 for an unknown difficulty. */
  function WagerPercentage(difficulty: string, closeToLead: bool, rWager: real): (pct: real)
    requires Draws.IsDraw(rWager)
    ensures difficulty == "easy" ==> 0.3 <= pct < 0.5
    ensures difficulty == "medium" ==> 0.5 <= pct < 0.7
    ensures difficulty == "hard" && closeToLead ==> 0.7 <= pct < 1.0
    ensures difficulty == "hard" && !closeToLead ==> 0.4 <= pct < 0.7
    ensures !IsKnownDifficulty(difficulty) ==> pct == 0.0
  {
    if difficulty == "easy" then 0.3 + rWager * 0.2
    else if difficulty == "medium" then 0.5 + rWager * 0.2
    else if difficulty == "hard" then (if closeToLead then 0.7 + rWager * 0.3 else 0.4 + rWager * 0.3)
    else 0.0
  }

  /** `w` is `floor(m * p)` for some `p` in [lo, hi). */
  predicate InBand(w: int, m: int, lo: real, hi: real) {
    lo * m as real - 1.0 < w as real <= hi * m as real
  }

  lemma FloorInBand(m: int, pct: real, lo: real, hi: real)
    requires m >= 0 && lo <= pct < hi
    ensures InBand((m as real * pct).Floor, m, lo, hi)
  {
    assert m as real * (pct - lo) >= 0.0;
    assert m as real * (hi - pct) >= 0.0;
  }

  /** `simulateAIWager`: `floor(maxWager * pct)` with the player's difficulty defaulting to
      medium. For a non-negative `maxWager` the wager lies in [0, maxWager], inside the band
      of its difficulty. */
  function SimulateAIWager(player: Player, maxWager: int, players: seq<Player>, rWager: real): (w: int)
    requires Draws.IsDraw(rWager)
    ensures maxWager >= 0 ==> 0 <= w <= maxWager
    ensures var d := OrMedium(player.difficulty);
      && (maxWager >= 0 && d == "easy" ==> InBand(w, maxWager, 0.3, 0.5))
      && (maxWager >= 0 && d == "medium" ==> InBand(w, maxWager, 0.5, 0.7))
      && (maxWager >= 0 && d == "hard" && CloseToLead(player.score, players) ==> InBand(w, maxWager, 0.7, 1.0))
      && (maxWager >= 0 && d == "hard" && !CloseToLead(player.score, players) ==> InBand(w, maxWager, 0.4, 0.7))
      && (!IsKnownDifficulty(d) ==> w == 0)
  {
    var d := OrMedium(player.difficulty);
    var close := d == "hard" && CloseToLead(player.score, players);
    var pct := WagerPercentage(d, close, rWager);
    var w := (maxWager as real * pct).Floor;
    assert maxWager >= 0 ==> 0 <= w <= maxWager by {
      if maxWager >= 0 {
        FloorInBand(maxWager, pct, 0.0, 1.0);
      }
    }
    assert maxWager >= 0 && IsKnownDifficulty(d) ==> InBand(w, maxWager, Lo(d, close), Hi(d, close)) by {
      if maxWager >= 0 && IsKnownDifficulty(d) {
        FloorInBand(maxWager, pct, Lo(d, close), Hi(d, close));
      }
    }
    w
  }

  function Lo(d: string, close: bool): real {
    if d == "easy" then 0.3 else if d == "medium" then 0.5 else if close then 0.7 else 0.4
  }

  function Hi(d: string, close: bool): real {
    if d == "easy" then 0.5 else if d == "medium" then 0.7 else if close then 1.0 else 0.7
  }

  // ---------------------------------------------------------------- buzzing

  datatype BuzzSim = BuzzSim(willBuzz: bool, buzzTime: real)

  /** The buzz delay, switched on the player's own difficulty (not defaulted):
      1.5-3.5 s when easy, 0.8-2.3 s when medium, 0.3-1.3 s when hard, else 0. */
  function BuzzTime(difficulty: Option<string>, rBuzz: real): (t: real)
    requires Draws.IsDraw(rBuzz)
    ensures difficulty == Some("easy") ==> 1500.0 <= t < 3500.0
    ensures difficulty == Some("medium") ==> 800.0 <= t < 2300.0
    ensures difficulty == Some("hard") ==> 300.0 <= t < 1300.0
    ensures difficulty.None? || !IsKnownDifficulty(difficulty.value) ==> t == 0.0
  {
    match difficulty
    case Some(d) =>
      if d == "easy" then 1500.0 + rBuzz * 2000.0
      else if d == "medium" then 800.0 + rBuzz * 1500.0
      else if d == "hard" then 300.0 + rBuzz * 1000.0
      else 0.0
    case None => 0.0
  }

  /** `simulateAIBuzzing`: buzzes exactly when the simulated answer (difficulty defaulting to
      medium) would be attempted, with no delay when it would not. An absent difficulty buzzes
      with delay 0 although it answers as medium. */
  function SimulateAIBuzzing(aiPlayer: Player, question: Question,
                             rTime: real, rWill: real, rCorrect: real, rBuzz: real): (b: BuzzSim)
    requires Draws.IsDraw(rTime) && Draws.IsDraw(rWill) && Draws.IsDraw(rCorrect) && Draws.IsDraw(rBuzz)
    ensures b.willBuzz <==> SimulateAIAnswer(question, OrMedium(aiPlayer.difficulty), rTime, rWill, rCorrect).willAnswer
    ensures b.willBuzz <==> rWill < 0.8
    ensures !b.willBuzz ==> b.buzzTime == 0.0
    ensures b.willBuzz ==> b.buzzTime == BuzzTime(aiPlayer.difficulty, rBuzz)
    ensures aiPlayer.difficulty.None? ==> b.buzzTime == 0.0
  {
    var response := SimulateAIAnswer(question, OrMedium(aiPlayer.difficulty), rTime, rWill, rCorrect);
    if !response.willAnswer then BuzzSim(false, 0.0)
    else BuzzSim(true, BuzzTime(aiPlayer.difficulty, rBuzz))
  }

  // ------------------------------------------------------ choosing a question

  function Abs(x: int): nat {
    if x < 0 then -x else x
  }

  function ByPrice(q: Question): int {
    q.price
  }

  function ByDistanceFrom30(q: Question): int {
    Abs(q.price - 30)
  }

  /** The order the computer player prefers: dearest first when close to the lead,
      otherwise furthest from a price of 30 first. */
  function PreferenceKey(closeToLead: bool): Question -> int {
    if closeToLead then ByPrice else ByDistanceFrom30
  }

  function Min(a: int, b: int): int {
    if a < b then a else b
  }

  /** `simulateAIQuestionSelection`: with no question available, ("", 0) and nothing changes;
      otherwise sorts `available` in place by preference and returns the category and price
      of the entry at `floor(r * min(3, n))`. */
  method SimulateAIQuestionSelection(aiPlayer: Player, available: array<Question>, players: seq<Player>, rPick: real)
    returns (category: string, value: int)
    requires Draws.IsDraw(rPick)
    modifies available
    ensures available.Length == 0 ==> category == "" && value == 0
    ensures available.Length > 0 ==>
      available[..] == SortDesc(old(available[..]), PreferenceKey(CloseToLead(aiPlayer.score, players))) &&
      var k := Draws.PickIndex(rPick, Min(3, available.Length));
      k < 3 && category == available[k].category && value == available[k].price
  {
    if available.Length == 0 {
      return "", 0;
    }
    var key := PreferenceKey(CloseToLead(aiPlayer.score, players));
    SortInPlace(available, key);
    var k := Draws.PickIndex(rPick, Min(3, available.Length));
    category := available[k].category;
    value := available[k].price;
  }

  /** The pick is one of the available questions, and no question outside the first three
      of the preference order is preferred to it. */
  lemma {:induction false} PickIsAmongTopThree(available: seq<Question>, key: Question -> int, k: nat)
    requires k < 3 && k < |available|
    ensures SortDesc(available, key)[k] in available
    ensures forall j :: 3 <= j < |available| ==> key(SortDesc(available, key)[j]) <= key(SortDesc(available, key)[k])
  {
    var sorted := SortDesc(available, key);
    SortDescSorted(available, key);
    SortDescPermutes(available, key);
    assert sorted[k] in multiset(sorted);
  }
}
