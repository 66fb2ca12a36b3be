/**
  The Daily Double scene: the player whose turn it is when a Daily Double is
  uncovered (the finder) wagers up to the larger of their score and 1000; the
  wager is typed by a human or proposed by the engine for an AI player,
  validated, and handed to the clue card with the clue.
*/
module DailyDouble {
  import opened Wrappers
  import opened Text
  import opened Questions
  import opened Players
  import ClueCard

  /** The most the finder may wager: their score, but never less than 1000. */
  function MaxWager(finderScore: int): (m: int)
    ensures m >= 1000 && m >= finderScore
    ensures m == finderScore || m == 1000
  {
    if finderScore > 1000 then finderScore else 1000
  }

  // ------------------------------------------------------------ wager input

  /** `parseWagerInput`: `None` stands for `NaN`; blank input is `NaN`, anything else
      is `parseInt` of the trimmed text. */
  function ParseWagerInput(input: string): (r: Option<int>)
    ensures AllWhitespace(input) ==> r.None?
  {
    if AllWhitespace(input) then None else ParseInt(Trim(input))
  }

  /** Blanks after the digits cannot extend the digit prefix. */
  lemma {:induction false} LeadingDigitsBeforeBlanks(x: string, w: string)
    requires AllWhitespace(w)
    ensures LeadingDigits(x + w) == LeadingDigits(x)
  {
    if x == [] {
      assert x + w == w;
      if w != [] {
        assert IsWhitespace(w[0]);
      }
    } else {
      assert (x + w)[0] == x[0];
      assert (x + w)[1..] == x[1..] + w;
      LeadingDigitsBeforeBlanks(x[1..], w);
    }
  }

  /** The blank check and the trim change nothing: reading a wager is exactly
      `parseInt(input, 10)`, which skips leading blanks itself and stops at the
      first character after the digits. */
  lemma ParseWagerInputIsParseInt(input: string)
    ensures ParseWagerInput(input) == ParseInt(input)
  {
    if !AllWhitespace(input) {
      TrimStartFacts(input);
      var t := TrimStart(input);
      var u := Trim(input);
      assert u == TrimEnd(t);
      assert !IsWhitespace(t[0]) && AllWhitespace(t[|u|..]);
      assert u != [];
      assert u[0] == t[0];
      assert TrimStart(u) == u;
      assert t == u + t[|u|..];
      assert SignStripped(t) == SignStripped(u) + t[|u|..];
      LeadingDigitsBeforeBlanks(SignStripped(u), t[|u|..]);
    }
  }

  /** A wager typed as the decimal text of a number reads back as that number. */
  lemma TypedNumberReadsBack(n: int)
    ensures ParseWagerInput(IntToString(n)) == Some(n)
  {
    ParseWagerInputIsParseInt(IntToString(n));
    ParseIntOfIntToString(n);
  }

  // ------------------------------------------------------------- validation

  /** What `submitWager` does with a wager: one of its three refusals, checked in
      this order, or acceptance. */
  datatype WagerVerdict =
    | NotANumber                  // "Please enter a valid number!"
    | Negative                    // "Wager cannot be negative!"
    | OverMax(maxWager: int)      // "Wager cannot exceed $<maxWager>!"
    | Accepted(amount: int)

  /** A wager is accepted exactly when it is a number from 0 to `maxWager`, and then
      it is taken as it is. */
  function Validate(wager: Option<int>, maxWager: int): (v: WagerVerdict)
    ensures v.Accepted? <==> wager.Some? && 0 <= wager.value <= maxWager
    ensures v.Accepted? ==> v.amount == wager.value
    ensures v == NotANumber <==> wager.None?
    ensures v == Negative <==> wager.Some? && wager.value < 0
    ensures v.OverMax? <==> wager.Some? && 0 <= wager.value && wager.value > maxWager
    ensures v.OverMax? ==> v.maxWager == maxWager
  {
    match wager
    case None => NotANumber
    case Some(w) =>
      if w < 0 then Negative
      else if w > maxWager then OverMax(maxWager)
      else Accepted(w)
  }

  /** Blank input is refused as not a number. */
  lemma BlankWagerRefused(input: string, maxWager: int)
    requires AllWhitespace(input)
    ensures Validate(ParseWagerInput(input), maxWager) == NotANumber
  {
  }

  /** Every amount from 0 to the maximum, typed in decimal, is accepted as itself. */
  lemma TypedWagerAccepted(n: int, maxWager: int)
    requires 0 <= n <= maxWager
    ensures Validate(ParseWagerInput(IntToString(n)), maxWager) == Accepted(n)
  {
    TypedNumberReadsBack(n);
  }

  /** What the clue card then stakes on an accepted wager: the wager itself, except
      that an accepted 0 is replaced there by the clue's price. */
  lemma AcceptedWagerStake(wager: Option<int>, maxWager: int, price: int)
    requires Validate(wager, maxWager).Accepted?
    ensures var amount := Validate(wager, maxWager).amount;
            ClueCard.DailyDoubleStake(Some(amount), price) == (if amount == 0 then price else amount)
  {
  }

  // ------------------------------------------------------------------ scene

  class DailyDoubleScene {
    const question: Question
    var wagerAmount: int
    var maxWager: int
    var finderPlayerIndex: int

    /** `create`: the finder is whoever's turn it is, and the ceiling is computed
        from their score. */
    constructor (question: Question, players: seq<Player>, currentPlayerIndex: int)
      requires 0 <= currentPlayerIndex < |players|
      ensures this.question == question && finderPlayerIndex == currentPlayerIndex
      ensures maxWager == MaxWager(players[currentPlayerIndex].score)
      ensures wagerAmount == 0
    {
      this.question := question;
      finderPlayerIndex := currentPlayerIndex;
      maxWager := MaxWager(players[currentPlayerIndex].score);
      wagerAmount := 0;
    }

    /** `submitWager`: a refused wager leaves `wagerAmount` as it was; an accepted one
        is recorded (and the scene then moves on to the clue). */
    method SubmitWager(wager: Option<int>) returns (verdict: WagerVerdict)
      modifies this
      ensures verdict == Validate(wager, maxWager)
      ensures wagerAmount == (if verdict.Accepted? then verdict.amount else old(wagerAmount))
      ensures maxWager == old(maxWager) && finderPlayerIndex == old(finderPlayerIndex)
    {
      if wager.None? {
        return NotANumber;
      }
      if wager.value < 0 {
        return Negative;
      }
      if wager.value > maxWager {
        return OverMax(maxWager);
      }
      wagerAmount := wager.value;
      verdict := Accepted(wager.value);
    }

    /** The button click or Enter key of a human finder. */
    method SubmitTypedWager(input: string) returns (verdict: WagerVerdict)
      modifies this
      ensures verdict == Validate(ParseWagerInput(input), maxWager)
      ensures wagerAmount == (if verdict.Accepted? then verdict.amount else old(wagerAmount))
      ensures maxWager == old(maxWager) && finderPlayerIndex == old(finderPlayerIndex)
    {
      verdict := SubmitWager(ParseWagerInput(input));
    }

    /** An AI finder: the engine's proposed wager goes through the same checks. */
    method SubmitAIWager(aiWager: int) returns (verdict: WagerVerdict)
      modifies this
      ensures verdict == Validate(Some(aiWager), maxWager)
      ensures wagerAmount == (if verdict.Accepted? then aiWager else old(wagerAmount))
      ensures maxWager == old(maxWager) && finderPlayerIndex == old(finderPlayerIndex)
    {
      verdict := SubmitWager(Some(aiWager));
    }

    /** `proceedToQuestion`: the clue goes to the clue card as a Daily Double with
        the recorded wager and the finder. */
    function HandOff(): (data: ClueCard.ClueData)
      reads this
      ensures data.question == question && data.isDailyDouble
      ensures data.finderPlayerIndex == Some(finderPlayerIndex)
      // the clue card stakes the recorded wager, and the price in place of a wager of 0
      ensures ClueCard.DailyDoubleStake(data.wagerAmount, question.price)
              == if wagerAmount == 0 then question.price else wagerAmount
    {
      ClueCard.ClueData(question, true, Some(wagerAmount), Some(finderPlayerIndex))
    }
  }

  /** The whole scene for a human finder who types a valid amount: the clue card
      receives exactly that amount. */
  method TypedWagerReachesClueCard(question: Question, players: seq<Player>, currentPlayerIndex: int, n: int)
    returns (data: ClueCard.ClueData)
    requires 0 <= currentPlayerIndex < |players|
    requires 0 <= n <= MaxWager(players[currentPlayerIndex].score)
    ensures data == ClueCard.ClueData(question, true, Some(n), Some(currentPlayerIndex))
  {
    var scene := new DailyDoubleScene(question, players, currentPlayerIndex);
    TypedWagerAccepted(n, scene.maxWager);
    var verdict := scene.SubmitTypedWager(IntToString(n));
    data := scene.HandOff();
  }
}
