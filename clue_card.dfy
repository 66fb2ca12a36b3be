/**
  The clue-card scene: judging a typed answer, revealing the clue word by
  word, the human and AI buzz guards, scoring regular and Daily-Double
  answers, re-opening the buzzers after a wrong answer, and the answer box's
  key handling.

  The turn engine the scene talks to is not part of this model: what the scene
  reads from it (the buzz order, whether buzzing is active, whether the clue has
  been read out) and what its `playerBuzz` answered come in as parameters, and
  the players' records are an array the scene updates in place.
*/
module ClueCard {
  import opened Wrappers
  import opened Text
  import opened Seqs
  import opened Questions
  import opened Players

  // ------------------------------------------------------------ answer check

  /** Both answers are lower-cased, then trimmed, before they are compared. */
  function Normalize(s: string): string {
    Trim(Lower(s))
  }

  /** `checkAnswer`: right when either normalized answer contains the other. */
  function CheckAnswer(playerAnswer: string, question: Question): (ok: bool)
    ensures ok <==> ((exists k :: OccursAt(Normalize(playerAnswer), Normalize(question.answer), k)) ||
                     (exists k :: OccursAt(Normalize(question.answer), Normalize(playerAnswer), k)))
  {
    ContainsIff(Normalize(playerAnswer), Normalize(question.answer));
    ContainsIff(Normalize(question.answer), Normalize(playerAnswer));
    Contains(Normalize(playerAnswer), Normalize(question.answer))
      || Contains(Normalize(question.answer), Normalize(playerAnswer))
  }

  /** The clue's own answer, typed back in any letter case, is always right. */
  lemma ExactAnswerIsRight(question: Question, typed: string)
    requires Lower(typed) == Lower(question.answer)
    ensures CheckAnswer(typed, question)
  {
    var n := Normalize(question.answer);
    assert OccursAt(n, n, 0);
  }

  /** A blank answer normalizes to the empty string, which every answer contains:
      a blank or empty submission is judged right. */
  lemma BlankAnswerIsRight(playerAnswer: string, question: Question)
    requires AllWhitespace(playerAnswer)
    ensures CheckAnswer(playerAnswer, question)
  {
    var lowered := Lower(playerAnswer);
    assert AllWhitespace(lowered) by {
      forall i | 0 <= i < |lowered| ensures IsWhitespace(lowered[i]) {
        assert IsWhitespace(playerAnswer[i]);
      }
    }
    TrimEmptyIff(lowered);
    assert OccursAt(Normalize(question.answer), Normalize(playerAnswer), 0);
  }

  /** The judgement does not depend on which side is the clue's answer. */
  lemma CheckAnswerSymmetric(playerAnswer: string, question: Question)
    ensures CheckAnswer(playerAnswer, question) == CheckAnswer(question.answer, question.(answer := playerAnswer))
  {
  }

  /** Blanks typed before the answer do not change the judgement. */
  lemma {:induction false} LeadingBlanksIgnored(blanks: string, playerAnswer: string, question: Question)
    requires AllWhitespace(blanks)
    ensures CheckAnswer(blanks + playerAnswer, question) == CheckAnswer(playerAnswer, question)
  {
    LowerAppend(blanks, playerAnswer);
    var lb := Lower(blanks);
    assert AllWhitespace(lb) by {
      forall i | 0 <= i < |lb| ensures IsWhitespace(lb[i]) {
        assert IsWhitespace(blanks[i]);
      }
    }
    TrimStartBlanks(lb, Lower(playerAnswer));
  }

  lemma LowerAppend(a: string, b: string)
    ensures Lower(a + b) == Lower(a) + Lower(b)
  {
  }

  lemma {:induction false} TrimStartBlanks(blanks: string, s: string)
    requires AllWhitespace(blanks)
    ensures TrimStart(blanks + s) == TrimStart(s)
  {
    if blanks != [] {
      assert (blanks + s)[1..] == blanks[1..] + s;
      TrimStartBlanks(blanks[1..], s);
    } else {
      assert blanks + s == s;
    }
  }

  // ------------------------------------------------------- the scene's input

  /** What the board hands to the clue card (`ClueCardSceneData`); an absent
      `isDailyDouble` reads as false. */
  datatype ClueData = ClueData(
    question: Question,
    isDailyDouble: bool,
    wagerAmount: Option<int>,
    finderPlayerIndex: Option<int>)

  /** `players.findIndex(p => p.isHuman)`, -1 when there is no human. */
  function HumanIndex(players: seq<Player>): (k: int)
    ensures -1 <= k < |players|
    ensures k == -1 <==> forall j :: 0 <= j < |players| ==> !players[j].isHuman
    ensures k >= 0 ==> players[k].isHuman && forall j :: 0 <= j < k ==> !players[j].isHuman
  {
    match FindIndex(players, (p: Player) => p.isHuman)
    case None => -1
    case Some(k) => k
  }

  // ------------------------------------------------------------- buzz guards

  /** A human buzz gets through to the engine only after the clue was read out,
      while the scene is in its buzzing phase, nobody has buzzed yet and the human
      has not tried this clue before. */
  predicate HumanMayBuzz(buzzingPhase: bool, questionReadComplete: bool, someoneBuzzed: bool,
                         humanIndex: int, buzzOrder: seq<int>) {
    buzzingPhase && questionReadComplete && !someoneBuzzed && humanIndex !in buzzOrder
  }

  /** An AI buzz gets through only while the engine's buzzing is active, the scene
      is in its buzzing phase, nobody has buzzed yet and this player has not tried. */
  predicate AIMayBuzz(isBuzzingActive: bool, buzzingPhase: bool, someoneBuzzed: bool,
                      playerIndex: int, buzzOrder: seq<int>) {
    isBuzzingActive && buzzingPhase && !someoneBuzzed && playerIndex !in buzzOrder
  }

  /** How a press of the buzzer key ends. */
  datatype HumanBuzz =
    | TooEarly              // the early-buzz penalty message
    | SomeoneElseFirst      // ignored silently
    | AlreadyTried          // "You already tried to answer this question!"
    | Refused               // the engine's playerBuzz answered false
    | Answering(playerIndex: int)

  /** The indices of the players missing from `buzzOrder`, in ascending order:
      those who may still buzz after a wrong answer. */
  function RemainingPlayers(playerCount: nat, buzzOrder: seq<int>): (r: seq<nat>)
    ensures forall k :: k in r <==> 0 <= k < playerCount && k !in buzzOrder
    ensures forall i, j :: 0 <= i < j < |r| ==> r[i] < r[j]
  {
    if playerCount == 0 then []
    else
      var front := RemainingPlayers(playerCount - 1, buzzOrder);
      assert forall i :: 0 <= i < |front| ==> front[i] in front;
      front + (if playerCount - 1 in buzzOrder then [] else [playerCount - 1])
  }

  /** Nobody remains exactly when every player index already appears in `buzzOrder`. */
  lemma RemainingEmptyIff(playerCount: nat, buzzOrder: seq<int>)
    ensures RemainingPlayers(playerCount, buzzOrder) == [] <==>
            forall k :: 0 <= k < playerCount ==> k in buzzOrder
  {
    if RemainingPlayers(playerCount, buzzOrder) != [] {
      assert RemainingPlayers(playerCount, buzzOrder)[0] in RemainingPlayers(playerCount, buzzOrder);
    }
  }

  /** The engine's buzz order after `allowRebuzzing` as written: the earlier order
      is put back and then `startBuzzing` runs. Its code is not part of this model;
      its assumed effect is to clear the buzz order, so nobody is on it any more. */
  function RebuzzOrderAsWritten(previous: seq<int>): (order: seq<int>)
    ensures forall k :: k !in order
  {
    []
  }

  /** As written, a player who already answered wrongly passes both buzz guards
      again once buzzing re-opens. */
  lemma EarlierBuzzerReadmittedAsWritten(buzzOrder: seq<int>, k: int)
    requires k in buzzOrder
    ensures AIMayBuzz(true, true, false, k, RebuzzOrderAsWritten(buzzOrder))
    ensures HumanMayBuzz(true, true, false, k, RebuzzOrderAsWritten(buzzOrder))
  {
  }

  /** The buzz order after a rebuzz that keeps the earlier buzzers out, as the
      restore is meant to: the same players as before. */
  function RebuzzOrder(previous: seq<int>): (order: seq<int>)
    ensures forall k :: k in order <==> k in previous
  {
    previous
  }

  /** With the earlier buzz order kept on a rebuzz, every player who already tried is
      turned away by both guards, and every remaining player may buzz. */
  lemma RebuzzKeepsEarlierBuzzersOut(playerCount: nat, buzzOrder: seq<int>, k: int, isBuzzingActive: bool)
    ensures k in buzzOrder ==> !AIMayBuzz(isBuzzingActive, true, false, k, RebuzzOrder(buzzOrder))
    ensures k in buzzOrder ==> !HumanMayBuzz(true, true, false, k, RebuzzOrder(buzzOrder))
    ensures k in RemainingPlayers(playerCount, buzzOrder) ==>
              AIMayBuzz(true, true, false, k, RebuzzOrder(buzzOrder)) &&
              HumanMayBuzz(true, true, false, k, RebuzzOrder(buzzOrder))
  {
  }

  // ------------------------------------------------------------ the answer box

  /** At most this many characters can be typed into the answer box. */
  const MaxAnswerLength := 50

  /** The typed text and whether the answer timer is still held (`answerTimer != null`). */
  datatype AnswerBox = AnswerBox(text: string, timerLive: bool)

  datatype KeyResult = KeyResult(box: AnswerBox, submitted: Option<string>)

  /** One `keydown` in the answer box: Enter submits the trimmed text while the
      timer is held and something non-blank was typed, Backspace drops the last
      character, and any single-character key is appended while there is room. */
  function KeyPress(b: AnswerBox, key: string): (r: KeyResult)
    ensures |b.text| <= MaxAnswerLength ==> |r.box.text| <= MaxAnswerLength
    ensures r.submitted.Some? <==> key == "Enter" && b.timerLive && !AllWhitespace(b.text)
    ensures r.submitted.Some? ==> r.submitted.value == Trim(b.text) && r.box == b.(timerLive := false)
    ensures r.submitted.None? ==> r.box.timerLive == b.timerLive
    ensures key == "Backspace" ==> r.box.text == if b.text == [] then [] else b.text[..|b.text| - 1]
    ensures |key| == 1 && |b.text| < MaxAnswerLength ==> r.box.text == b.text + key
    ensures |key| == 1 && |b.text| >= MaxAnswerLength ==> r.box == b
  {
    TrimEmptyIff(b.text);
    if key == "Enter" then
      if b.timerLive && |Trim(b.text)| > 0 then KeyResult(b.(timerLive := false), Some(Trim(b.text)))
      else KeyResult(b, None)
    else if key == "Backspace" then
      KeyResult(b.(text := if b.text == [] then [] else b.text[..|b.text| - 1]), None)
    else if |key| == 1 && |b.text| < MaxAnswerLength then
      KeyResult(b.(text := b.text + key), None)
    else
      KeyResult(b, None)
  }

  /** Typing a character and then Backspace leaves the box as it was. */
  lemma TypeThenBackspace(b: AnswerBox, c: string)
    requires |c| == 1 && |b.text| < MaxAnswerLength
    ensures KeyPress(KeyPress(b, c).box, "Backspace").box == b
  {
    var typed := KeyPress(b, c).box;
    assert typed.text[..|typed.text| - 1] == b.text;
  }

  /** The box after a whole run of key presses. */
  function AfterKeys(b: AnswerBox, keys: seq<string>): (r: AnswerBox)
    ensures |b.text| <= MaxAnswerLength ==> |r.text| <= MaxAnswerLength
    ensures !b.timerLive ==> !r.timerLive
    decreases |keys|
  {
    if keys == [] then b else AfterKeys(KeyPress(b, keys[0]).box, keys[1..])
  }

  /** Once the timer is released no key press submits: at most one submission per answer box. */
  lemma {:induction false} NoSubmissionAfterRelease(b: AnswerBox, keys: seq<string>, key: string)
    requires !b.timerLive
    ensures KeyPress(AfterKeys(b, keys), key).submitted.None?
  {
  }

  /** The answer timeout as written: it removes the input's display but leaves
      `answerTimer` set, so the box still counts as live. */
  function AnswerTimeoutAsWritten(b: AnswerBox): (r: AnswerBox)
    ensures r.text == b.text && r.timerLive == b.timerLive
  {
    b
  }

  /** As written, Enter pressed after the timeout still submits: the player's
      answer is scored a second time on top of the timeout's wrong answer. */
  lemma LateEnterSubmitsAsWritten()
    ensures KeyPress(AnswerTimeoutAsWritten(AnswerBox("x", true)), "Enter").submitted == Some("x")
  {
    var b := AnswerBox("x", true);
    assert !IsWhitespace(b.text[0]);
    assert TrimStart(b.text) == "x";
    assert TrimEnd("x") == "x";
  }

  /** The timeout with the timer released, as the submit path does. */
  function AnswerTimeout(b: AnswerBox): (r: AnswerBox)
    ensures r.text == b.text && !r.timerLive
  {
    b.(timerLive := false)
  }

  /** After the corrected timeout, no sequence of key presses submits anything. */
  lemma LateEnterIgnored(b: AnswerBox, keys: seq<string>, key: string)
    ensures KeyPress(AfterKeys(AnswerTimeout(b), keys), key).submitted.None?
  {
    NoSubmissionAfterRelease(AnswerTimeout(b), keys, key);
  }

  // ---------------------------------------------------------------- scoring

  /** `wagerAmount || price`: an absent or zero wager settles at the clue's price. */
  function DailyDoubleStake(wagerAmount: Option<int>, price: int): (stake: int)
    ensures wagerAmount.None? ==> stake == price
    ensures wagerAmount == Some(0) ==> stake == price
    ensures wagerAmount.Some? && wagerAmount.value != 0 ==> stake == wagerAmount.value
  {
    if wagerAmount.None? || wagerAmount.value == 0 then price else wagerAmount.value
  }

  /** What the scene does after scoring an answer. */
  datatype AfterAnswer =
    | Ignored         // a Daily-Double answer from someone other than the finder
    | BackToBoard     // show the result, then return to the board
    | OfferRebuzz     // wrong, and somebody has not tried yet

  /** What reading the next word leads to. */
  datatype ReadStep =
    | StillReading
    | FinderAnswers(finder: Option<int>)   // Daily Double: only the finder answers
    | BuzzingOpens                         // the engine's startBuzzing is called

  class ClueCardScene {
    const data: ClueData
    const words: seq<string>
    var currentWordIndex: nat
    /** The text of the question display. */
    var display: string
    var buzzingPhase: bool
    var someoneBuzzed: bool
    /** `answerTimer != null` */
    var answerTimerLive: bool
    var currentInput: string

    ghost predicate Valid()
      reads this
    {
      words == Split(data.question.question, ' ') &&
      currentWordIndex <= |words| &&
      |currentInput| <= MaxAnswerLength
    }

    /** `create` followed by `startReadingQuestion`. */
    constructor (data: ClueData)
      ensures Valid()
      ensures this.data == data && words == Split(data.question.question, ' ')
      ensures currentWordIndex == 0 && display == ""
      ensures !buzzingPhase && !someoneBuzzed && !answerTimerLive && currentInput == ""
    {
      this.data := data;
      words := Split(data.question.question, ' ');
      currentWordIndex := 0;
      display := "";
      buzzingPhase := false;
      someoneBuzzed := false;
      answerTimerLive := false;
      currentInput := "";
    }

    /** One tick of the reading timer, which fires once per word. The display shows
        the words read so far joined by single spaces; after the last word it is
        cleared, the buzzing phase begins, and the text shown last is the whole clue. */
    method ReadNextWord() returns (shown: string, step: ReadStep)
      requires Valid() && currentWordIndex < |words|
      modifies this
      ensures Valid()
      ensures currentWordIndex == old(currentWordIndex) + 1
      ensures shown == Join(words[..currentWordIndex], ' ')
      ensures currentWordIndex < |words| ==>
                display == shown && step == StillReading && buzzingPhase == old(buzzingPhase)
      ensures currentWordIndex == |words| ==>
                display == "" && buzzingPhase && shown == data.question.question &&
                step == (if data.isDailyDouble then FinderAnswers(data.finderPlayerIndex) else BuzzingOpens)
      ensures someoneBuzzed == old(someoneBuzzed) && answerTimerLive == old(answerTimerLive)
      ensures currentInput == old(currentInput)
    {
      shown := Join(words[..currentWordIndex + 1], ' ');
      display := shown;
      currentWordIndex := currentWordIndex + 1;
      if currentWordIndex >= |words| {
        buzzingPhase := true;
        display := "";
        assert words[..currentWordIndex] == words;
        JoinSplit(data.question.question, ' ');
        step := if data.isDailyDouble then FinderAnswers(data.finderPlayerIndex) else BuzzingOpens;
      } else {
        step := StillReading;
      }
    }

    /** `startAnswerPhase`: buzzing ends; a human gets a fresh answer box and a live timer. */
    method StartAnswerPhase(isHuman: bool)
      requires Valid()
      modifies this
      ensures Valid() && !buzzingPhase
      ensures isHuman ==> answerTimerLive && currentInput == ""
      ensures !isHuman ==> answerTimerLive == old(answerTimerLive) && currentInput == old(currentInput)
      ensures someoneBuzzed == old(someoneBuzzed) && display == old(display)
      ensures currentWordIndex == old(currentWordIndex)
    {
      buzzingPhase := false;
      if isHuman {
        answerTimerLive := true;
        currentInput := "";
      }
    }

    /** The buzzer key. `buzzAccepted` is what the engine's `playerBuzz` answers when
        asked; it is asked only once every guard has passed. Without a human player
        `findIndex` gives -1, and that index is what is handed on. */
    method HandleHumanBuzz(players: seq<Player>, questionReadComplete: bool, buzzOrder: seq<int>,
                           buzzAccepted: bool) returns (outcome: HumanBuzz)
      requires Valid()
      modifies this
      ensures Valid()
      ensures outcome.Answering? <==>
              HumanMayBuzz(old(buzzingPhase), questionReadComplete, old(someoneBuzzed), HumanIndex(players), buzzOrder)
              && buzzAccepted
      ensures outcome == TooEarly <==> !old(buzzingPhase) || !questionReadComplete
      ensures outcome == SomeoneElseFirst <==> old(buzzingPhase) && questionReadComplete && old(someoneBuzzed)
      ensures outcome == AlreadyTried <==>
              old(buzzingPhase) && questionReadComplete && !old(someoneBuzzed) && HumanIndex(players) in buzzOrder
      ensures outcome == Refused <==>
              HumanMayBuzz(old(buzzingPhase), questionReadComplete, old(someoneBuzzed), HumanIndex(players), buzzOrder)
              && !buzzAccepted
      ensures outcome.Answering? ==>
                outcome.playerIndex == HumanIndex(players) && someoneBuzzed &&
                !buzzingPhase && answerTimerLive && currentInput == ""
      ensures !outcome.Answering? ==>
                someoneBuzzed == old(someoneBuzzed) && buzzingPhase == old(buzzingPhase) &&
                answerTimerLive == old(answerTimerLive) && currentInput == old(currentInput)
      ensures display == old(display) && currentWordIndex == old(currentWordIndex)
    {
      if !buzzingPhase || !questionReadComplete {
        return TooEarly;
      }
      if someoneBuzzed {
        return SomeoneElseFirst;
      }
      var human := HumanIndex(players);
      if human in buzzOrder {
        return AlreadyTried;
      }
      if buzzAccepted {
        someoneBuzzed := true;
        StartAnswerPhase(true);
        outcome := Answering(human);
      } else {
        outcome := Refused;
      }
    }

    /** An AI player's buzz timer firing. On success the AI's answer phase follows
        after a short delay (`StartAnswerPhase(false)`). */
    method HandleAIBuzz(playerIndex: int, isBuzzingActive: bool, buzzOrder: seq<int>, buzzAccepted: bool)
      returns (buzzed: bool)
      requires Valid()
      modifies this
      ensures Valid()
      ensures buzzed <==>
              AIMayBuzz(isBuzzingActive, old(buzzingPhase), old(someoneBuzzed), playerIndex, buzzOrder) && buzzAccepted
      ensures someoneBuzzed == (old(someoneBuzzed) || buzzed)
      ensures buzzingPhase == old(buzzingPhase) && answerTimerLive == old(answerTimerLive)
      ensures currentInput == old(currentInput) && display == old(display)
      ensures currentWordIndex == old(currentWordIndex)
    {
      if !isBuzzingActive || !buzzingPhase || someoneBuzzed {
        return false;
      }
      if playerIndex in buzzOrder {
        return false;
      }
      buzzed := buzzAccepted;
      if buzzed {
        someoneBuzzed := true;
      }
    }

    /** The buzzing countdown running out: with nobody buzzed, the phase ends and
        the answer is shown; otherwise nothing happens. */
    method HandleBuzzingTimeout() returns (closed: bool)
      requires Valid()
      modifies this
      ensures Valid()
      ensures closed <==> !old(someoneBuzzed)
      ensures buzzingPhase == (old(buzzingPhase) && !closed)
      ensures someoneBuzzed == old(someoneBuzzed) && answerTimerLive == old(answerTimerLive)
      ensures currentInput == old(currentInput) && display == old(display)
      ensures currentWordIndex == old(currentWordIndex)
    {
      closed := !someoneBuzzed;
      if closed {
        buzzingPhase := false;
      }
    }

    /** One `keydown` while the answer box is shown; a submission goes on to be
        judged with `CheckAnswer` and scored with `ProcessAnswer`. */
    method KeyDown(key: string) returns (submitted: Option<string>)
      requires Valid()
      modifies this
      ensures Valid()
      ensures KeyPress(AnswerBox(old(currentInput), old(answerTimerLive)), key) ==
              KeyResult(AnswerBox(currentInput, answerTimerLive), submitted)
      ensures buzzingPhase == old(buzzingPhase) && someoneBuzzed == old(someoneBuzzed)
      ensures display == old(display) && currentWordIndex == old(currentWordIndex)
    {
      var r := KeyPress(AnswerBox(currentInput, answerTimerLive), key);
      currentInput := r.box.text;
      answerTimerLive := r.box.timerLive;
      submitted := r.submitted;
    }

    /** The answer timer firing: the wrong-answer scoring follows after a delay.
        The timer is released here (the corrected timeout; as written it stays held:
        `AnswerTimeoutAsWritten`), so a later Enter cannot submit a second answer. */
    method HandleAnswerTimeout()
      requires Valid()
      modifies this
      ensures Valid()
      ensures AnswerBox(currentInput, answerTimerLive) == AnswerTimeout(AnswerBox(old(currentInput), old(answerTimerLive)))
      ensures buzzingPhase == old(buzzingPhase) && someoneBuzzed == old(someoneBuzzed)
      ensures display == old(display) && currentWordIndex == old(currentWordIndex)
    {
      answerTimerLive := false;
    }

    /** `processAnswer`. On a Daily Double only the finder's answer counts: their
        score moves by the stake and a right answer keeps their turn. On a regular
        clue the answerer's score moves by the price, a right answer gives them the
        turn, and a wrong one offers a rebuzz while somebody has not tried yet.
        No other record changes. */
    method ProcessAnswer(players: array<Player>, playerIndex: int, isCorrect: bool,
                         currentPlayerIndex: int, buzzOrder: seq<int>)
      returns (nextPlayerIndex: int, after: AfterAnswer)
      requires (data.isDailyDouble && data.finderPlayerIndex != Some(playerIndex)) || 0 <= playerIndex < players.Length
      modifies players
      ensures data.isDailyDouble && data.finderPlayerIndex != Some(playerIndex) ==>
                players[..] == old(players[..]) && nextPlayerIndex == currentPlayerIndex && after == Ignored
      ensures data.isDailyDouble && data.finderPlayerIndex == Some(playerIndex) ==>
                var stake := DailyDoubleStake(data.wagerAmount, data.question.price);
                players[..] == old(players[..])[playerIndex :=
                  old(players[playerIndex]).(score := old(players[playerIndex].score) + (if isCorrect then stake else -stake))] &&
                nextPlayerIndex == (if isCorrect then playerIndex else currentPlayerIndex) &&
                after == BackToBoard
      ensures !data.isDailyDouble ==>
                var price := data.question.price;
                players[..] == old(players[..])[playerIndex :=
                  old(players[playerIndex]).(score := old(players[playerIndex].score) + (if isCorrect then price else -price))] &&
                nextPlayerIndex == (if isCorrect then playerIndex else currentPlayerIndex) &&
                after == (if !isCorrect && RemainingPlayers(players.Length, buzzOrder) != [] then OfferRebuzz else BackToBoard)
    {
      nextPlayerIndex := currentPlayerIndex;
      if data.isDailyDouble {
        var wager := DailyDoubleStake(data.wagerAmount, data.question.price);
        if data.finderPlayerIndex == Some(playerIndex) {
          var player := players[playerIndex];
          if isCorrect {
            players[playerIndex] := player.(score := player.score + wager);
            nextPlayerIndex := playerIndex;
          } else {
            players[playerIndex] := player.(score := player.score - wager);
          }
          after := BackToBoard;
        } else {
          after := Ignored;
        }
        return;
      }
      var player := players[playerIndex];
      if isCorrect {
        players[playerIndex] := player.(score := player.score + data.question.price);
        nextPlayerIndex := playerIndex;
        after := BackToBoard;
      } else {
        players[playerIndex] := player.(score := player.score - data.question.price);
        var remaining := RemainingPlayers(players.Length, buzzOrder);
        after := if |remaining| > 0 then OfferRebuzz else BackToBoard;
      }
    }

    /** `allowRebuzzing`: with nobody left the buzzing phase ends (`None`); otherwise
        buzzing re-opens with the engine's buzz order as `RebuzzOrder` keeps it,
        the earlier buzzers still on it (the corrected rebuzz; as written,
        `startBuzzing` after the restore clears it: `RebuzzOrderAsWritten`). */
    method AllowRebuzzing(playerCount: nat, buzzOrder: seq<int>) returns (restored: Option<seq<int>>)
      requires Valid()
      modifies this
      ensures Valid()
      ensures restored.None? <==> RemainingPlayers(playerCount, buzzOrder) == []
      ensures restored.None? ==> !buzzingPhase && someoneBuzzed == old(someoneBuzzed)
      ensures restored.Some? ==> restored.value == RebuzzOrder(buzzOrder) && buzzingPhase && !someoneBuzzed
      ensures answerTimerLive == old(answerTimerLive) && currentInput == old(currentInput)
      ensures display == old(display) && currentWordIndex == old(currentWordIndex)
    {
      var remaining := RemainingPlayers(playerCount, buzzOrder);
      if |remaining| == 0 {
        buzzingPhase := false;
        return None;
      }
      buzzingPhase := true;
      someoneBuzzed := false;
      restored := Some(RebuzzOrder(buzzOrder));
    }
  }
}
