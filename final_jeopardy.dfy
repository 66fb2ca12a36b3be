/**
  The Final Jeopardy scene: who may play (a positive score), one wager record
  per eligible player, the clamped human wager, defaulting of wagers nobody set,
  settling every record by plus or minus its wager, the winner and the final
  standings.

  The players' records belong to the turn engine; the scene reads them as a
  sequence and updates scores and order in place in an array. The AI's wager and
  answer simulation come in as values.
*/
module FinalJeopardy {
  import opened Wrappers
  import opened Text
  import opened Seqs
  import opened Questions
  import opened Players
  import opened Sorting
  import ClueCard

  // ------------------------------------------------------------ eligibility

  /** The indices of the players with a positive score, in ascending order. */
  function EligiblePlayers(players: seq<Player>): (r: seq<nat>)
    ensures forall k :: k in r <==> 0 <= k < |players| && players[k].score > 0
    ensures forall i, j :: 0 <= i < j < |r| ==> r[i] < r[j]
  {
    if players == [] then []
    else
      var n := |players| - 1;
      var front := EligiblePlayers(players[..n]);
      assert forall k :: 0 <= k < n ==> players[..n][k] == players[k];
      assert forall i :: 0 <= i < |front| ==> front[i] in front;
      front + (if players[n].score > 0 then [n] else [])
  }

  /** Nobody is eligible, and play goes straight to game over, exactly when no
      score is positive. */
  lemma EligibleEmptyIff(players: seq<Player>)
    ensures EligiblePlayers(players) == [] <==> forall k :: 0 <= k < |players| ==> players[k].score <= 0
  {
    var r := EligiblePlayers(players);
    if r != [] {
      assert r[0] in r;
    }
  }

  // ---------------------------------------------------------- wager records

  datatype PlayerWager = PlayerWager(playerIndex: nat, wager: int, answer: string, isAnswered: bool)

  /** One fresh record per eligible player: no wager, no answer. */
  function InitialWagers(eligible: seq<nat>): (ws: seq<PlayerWager>)
    ensures |ws| == |eligible|
    ensures forall k :: 0 <= k < |ws| ==>
              ws[k].playerIndex == eligible[k] && ws[k].wager == 0 && ws[k].answer == "" && !ws[k].isAnswered
  {
    seq(|eligible|, k requires 0 <= k < |eligible| => PlayerWager(eligible[k], 0, "", false))
  }

  /** The records belong to the eligible players, one each, in the same order. */
  predicate RecordsFor(ws: seq<PlayerWager>, eligible: seq<nat>) {
    |ws| == |eligible| &&
    (forall k :: 0 <= k < |ws| ==> ws[k].playerIndex == eligible[k]) &&
    (forall i, j :: 0 <= i < j < |eligible| ==> eligible[i] < eligible[j])
  }

  function Max2(a: int, b: int): int {
    if a >= b then a else b
  }

  function Min2(a: int, b: int): int {
    if a <= b then a else b
  }

  /** `Math.max(0, Math.min(parseInt(input) || 0, maxWager))`: text that is not a
      number, or is zero, counts as 0. */
  function HumanWager(input: string, maxWager: int): (w: int)
    ensures maxWager >= 0 ==> 0 <= w <= maxWager
    ensures ParseInt(input).None? ==> w == Max2(0, Min2(0, maxWager))
  {
    var typed := match ParseInt(input) case None => 0 case Some(v) => v;
    Max2(0, Min2(typed, maxWager))
  }

  /** A wager typed as a number between 0 and the score is taken as typed; above
      the score it is cut down to the score, below 0 it is raised to 0. */
  lemma HumanWagerOfNumber(n: int, maxWager: int)
    requires maxWager >= 0
    ensures 0 <= n <= maxWager ==> HumanWager(IntToString(n), maxWager) == n
    ensures n > maxWager ==> HumanWager(IntToString(n), maxWager) == maxWager
    ensures n < 0 ==> HumanWager(IntToString(n), maxWager) == 0
  {
    ParseIntOfIntToString(n);
  }

  /** The wager after `finishWageringPhase`: a wager still at 0 becomes half the
      score, rounded down. */
  function Defaulted(pw: PlayerWager, players: seq<Player>): (r: PlayerWager)
    requires pw.playerIndex < |players|
    ensures r.playerIndex == pw.playerIndex && r.answer == pw.answer && r.isAnswered == pw.isAnswered
    ensures pw.wager != 0 ==> r.wager == pw.wager
    ensures pw.wager == 0 ==> 2 * r.wager <= players[pw.playerIndex].score < 2 * r.wager + 2
  {
    if pw.wager == 0 then pw.(wager := players[pw.playerIndex].score / 2) else pw
  }

  /** A defaulted wager of an eligible player stays between 0 and the score. */
  lemma DefaultedWithinScore(pw: PlayerWager, players: seq<Player>)
    requires pw.playerIndex < |players| && players[pw.playerIndex].score > 0
    requires 0 <= pw.wager <= players[pw.playerIndex].score
    ensures 0 <= Defaulted(pw, players).wager <= players[pw.playerIndex].score
  {
  }

  // -------------------------------------------------------------- settlement

  /** The score change for one record: plus the wager for a right answer, minus it otherwise. */
  function Delta(pw: PlayerWager, question: Question): int {
    if ClueCard.CheckAnswer(pw.answer, question) then pw.wager else -pw.wager
  }

  function SettleOne(ps: seq<Player>, pw: PlayerWager, question: Question): (r: seq<Player>)
    requires pw.playerIndex < |ps|
    ensures |r| == |ps|
  {
    ps[pw.playerIndex := ps[pw.playerIndex].(score := ps[pw.playerIndex].score + Delta(pw, question))]
  }

  /** The players after the records `ws` were settled one after the other. */
  function SettleAll(ps: seq<Player>, ws: seq<PlayerWager>, question: Question): (r: seq<Player>)
    requires forall k :: 0 <= k < |ws| ==> ws[k].playerIndex < |ps|
    ensures |r| == |ps|
  {
    if ws == [] then ps
    else SettleOne(SettleAll(ps, ws[..|ws| - 1], question), ws[|ws| - 1], question)
  }

  predicate DistinctPlayers(ws: seq<PlayerWager>) {
    forall i, j :: 0 <= i < j < |ws| ==> ws[i].playerIndex != ws[j].playerIndex
  }

  /** A player without a record keeps their record as it was. */
  lemma {:induction false} SettledUnrecorded(ps: seq<Player>, ws: seq<PlayerWager>, question: Question, i: int)
    requires forall k :: 0 <= k < |ws| ==> ws[k].playerIndex < |ps|
    requires 0 <= i < |ps| && forall j :: 0 <= j < |ws| ==> ws[j].playerIndex != i
    ensures SettleAll(ps, ws, question)[i] == ps[i]
  {
    if ws != [] {
      var front := ws[..|ws| - 1];
      assert forall j :: 0 <= j < |front| ==> front[j] == ws[j];
      SettledUnrecorded(ps, front, question, i);
    }
  }

  /** With one record per player, a recorded player's score moves by exactly their
      own record's delta, and nothing else about them changes. */
  lemma {:induction false} SettledRecorded(ps: seq<Player>, ws: seq<PlayerWager>, question: Question, j: int)
    requires forall k :: 0 <= k < |ws| ==> ws[k].playerIndex < |ps|
    requires DistinctPlayers(ws) && 0 <= j < |ws|
    ensures SettleAll(ps, ws, question)[ws[j].playerIndex] ==
            ps[ws[j].playerIndex].(score := ps[ws[j].playerIndex].score + Delta(ws[j], question))
  {
    var front := ws[..|ws| - 1];
    var last := ws[|ws| - 1];
    assert forall k :: 0 <= k < |front| ==> front[k] == ws[k];
    if j == |ws| - 1 {
      SettledUnrecorded(ps, front, question, last.playerIndex);
    } else {
      SettledRecorded(ps, front, question, j);
    }
  }

  /** Settling all records: each recorded player moves by their own delta, every
      other player is untouched. */
  lemma SettleAllEffect(ps: seq<Player>, ws: seq<PlayerWager>, question: Question)
    requires forall k :: 0 <= k < |ws| ==> ws[k].playerIndex < |ps|
    requires DistinctPlayers(ws)
    ensures forall j :: 0 <= j < |ws| ==>
              SettleAll(ps, ws, question)[ws[j].playerIndex] ==
              ps[ws[j].playerIndex].(score := ps[ws[j].playerIndex].score + Delta(ws[j], question))
    ensures forall i :: 0 <= i < |ps| && (forall j :: 0 <= j < |ws| ==> ws[j].playerIndex != i) ==>
              SettleAll(ps, ws, question)[i] == ps[i]
  {
    forall j | 0 <= j < |ws| {
      SettledRecorded(ps, ws, question, j);
    }
    forall i | 0 <= i < |ps| && (forall j :: 0 <= j < |ws| ==> ws[j].playerIndex != i) {
      SettledUnrecorded(ps, ws, question, i);
    }
  }

  /** Settling one record writes the recorded player's new score. */
  /** One pass of the `forEach` in `showResults`: the record's player gains the
      wager for a right answer and loses it for a wrong one. */
  method SettleRecord(players: array<Player>, pw: PlayerWager, question: Question)
    requires pw.playerIndex < players.Length
    modifies players
    ensures players[..] == SettleOne(old(players[..]), pw, question)
  {
    var player := players[pw.playerIndex];
    var isCorrect := ClueCard.CheckAnswer(pw.answer, question);
    if isCorrect {
      players[pw.playerIndex] := player.(score := player.score + pw.wager);
    } else {
      players[pw.playerIndex] := player.(score := player.score - pw.wager);
    }
  }

  /** Settling one more record is one more step. */
  lemma SettleStep(ps: seq<Player>, ws: seq<PlayerWager>, k: nat, question: Question)
    requires k < |ws| && forall j :: 0 <= j < |ws| ==> ws[j].playerIndex < |ps|
    ensures SettleAll(ps, ws[..k + 1], question) == SettleOne(SettleAll(ps, ws[..k], question), ws[k], question)
  {
    assert ws[..k + 1][..k] == ws[..k];
  }

  /** A record whose answer was never given settles as a right answer: the empty
      answer is contained in every answer. */
  lemma UnansweredGainsWager(pw: PlayerWager, question: Question)
    requires pw.answer == ""
    ensures Delta(pw, question) == pw.wager
  {
    ClueCard.BlankAnswerIsRight(pw.answer, question);
  }

  /** The text an AI player records when the simulation says it is wrong. */
  const WrongAnswerText := "Wrong answer"

  /** The answer recorded for an AI player: the clue's own answer when the
      simulation says it is right, a fixed wrong text otherwise. */
  function AIAnswer(isCorrect: bool, question: Question): (answer: string)
    ensures isCorrect ==> answer == question.answer && ClueCard.CheckAnswer(answer, question)
    ensures !isCorrect ==> answer == WrongAnswerText
  {
    if isCorrect then
      ClueCard.ExactAnswerIsRight(question, question.answer);
      question.answer
    else WrongAnswerText
  }

  lemma WrongAnswerNormalized()
    ensures ClueCard.Normalize(WrongAnswerText) == "wrong answer"
  {
    var l := Lower(WrongAnswerText);
    forall i | 0 <= i < |l|
      ensures l[i] == "wrong answer"[i]
    {
    }
    assert l == "wrong answer";
    assert TrimStart(l) == l;
    assert TrimEnd(l) == l;
  }

  /** A record of a wrong simulation is still settled as right exactly when the
      clue's normalized answer occurs in "wrong answer" or contains it; then the
      AI gains its wager. */
  lemma WrongSimulationScoredRight(pw: PlayerWager, question: Question)
    requires pw.answer == AIAnswer(false, question)
    ensures ClueCard.CheckAnswer(pw.answer, question) <==>
              (exists k :: OccursAt("wrong answer", ClueCard.Normalize(question.answer), k)) ||
              (exists k :: OccursAt(ClueCard.Normalize(question.answer), "wrong answer", k))
    ensures ClueCard.CheckAnswer(pw.answer, question) ==> Delta(pw, question) == pw.wager
  {
    WrongAnswerNormalized();
  }

  lemma RonNormalized()
    ensures ClueCard.Normalize("Ron") == "ron"
  {
    var l := Lower("Ron");
    forall i | 0 <= i < |l|
      ensures l[i] == "ron"[i]
    {
    }
    assert l == "ron";
    assert TrimStart(l) == l;
    assert TrimEnd(l) == l;
  }

  /** For a clue whose answer is "Ron" an AI that the simulation calls wrong is
      credited its wager: "ron" occurs in "wrong answer". */
  lemma WrongSimulationCreditedForRon(pw: PlayerWager, question: Question)
    requires question.answer == "Ron" && pw.answer == AIAnswer(false, question)
    ensures Delta(pw, question) == pw.wager
  {
    WrongAnswerNormalized();
    RonNormalized();
    var w: string := "wrong answer";
    assert w[1..4] == "ron" by {
      assert w[1] == 'r' && w[2] == 'o' && w[3] == 'n';
    }
    assert OccursAt(ClueCard.Normalize(pw.answer), ClueCard.Normalize(question.answer), 1);
  }

  // ------------------------------------------------------------------ winner

  /** `players.reduce((prev, cur) => prev.score > cur.score ? prev : cur)` as an
      index: a highest score, and the last player holding it, since a tie goes to
      the later player. */
  function WinnerIndex(players: seq<Player>): (k: nat)
    requires |players| > 0
    ensures k < |players|
    ensures forall j :: 0 <= j < |players| ==> players[j].score <= players[k].score
    ensures forall j :: k < j < |players| ==> players[j].score < players[k].score
  {
    if |players| == 1 then 0
    else
      var n := |players| - 1;
      var prev := WinnerIndex(players[..n]);
      assert forall j :: 0 <= j < n ==> players[..n][j] == players[j];
      if players[prev].score > players[n].score then prev else n
  }

  /** The winner holds the leading score. */
  lemma WinnerHoldsLead(players: seq<Player>)
    requires |players| > 0
    ensures LeadingScore(players) == Some(players[WinnerIndex(players)].score)
  {
    var k := WinnerIndex(players);
    var m := LeadingScore(players);
    var j :| 0 <= j < |players| && players[j].score == m.value;
  }

  function ScoreOf(p: Player): int {
    p.score
  }

  // ------------------------------------------------------------------- scene

  class FinalJeopardyScene {
    const question: Question
    var eligiblePlayers: seq<nat>
    var playerWagers: seq<PlayerWager>

    ghost predicate Valid()
      reads this
    {
      RecordsFor(playerWagers, eligiblePlayers)
    }

    /** `create`: the eligible players and one fresh record each. With nobody
        eligible both lists are empty and the scene moves on to game over. */
    constructor (question: Question, players: seq<Player>)
      ensures Valid()
      ensures this.question == question
      ensures eligiblePlayers == EligiblePlayers(players)
      ensures playerWagers == InitialWagers(eligiblePlayers)
    {
      this.question := question;
      eligiblePlayers := EligiblePlayers(players);
      playerWagers := InitialWagers(EligiblePlayers(players));
    }

    /** The first record for `playerIndex`, if any. */
    function RecordOf(playerIndex: int): (r: Option<nat>)
      reads this
      ensures r.Some? ==> r.value < |playerWagers| && playerWagers[r.value].playerIndex == playerIndex
      ensures r.None? ==> forall k :: 0 <= k < |playerWagers| ==> playerWagers[k].playerIndex != playerIndex
    {
      FindIndex(playerWagers, (pw: PlayerWager) => pw.playerIndex == playerIndex)
    }

    /** `setPlayerWager`: only the record of that player changes, and only its
        wager; without such a record nothing changes. */
    method SetPlayerWager(playerIndex: int, wager: int)
      requires Valid()
      modifies this
      ensures Valid() && eligiblePlayers == old(eligiblePlayers)
      ensures |playerWagers| == |old(playerWagers)|
      ensures forall k :: 0 <= k < |playerWagers| ==>
                playerWagers[k] == if old(playerWagers[k]).playerIndex == playerIndex
                                   then old(playerWagers[k]).(wager := wager)
                                   else old(playerWagers[k])
    {
      var found := RecordOf(playerIndex);
      if found.Some? {
        var k := found.value;
        playerWagers := playerWagers[k := playerWagers[k].(wager := wager)];
      }
    }

    /** `setPlayerAnswer`: only the record of that player changes: it gets the
        answer and is marked answered; without such a record nothing changes. */
    method SetPlayerAnswer(playerIndex: int, answer: string)
      requires Valid()
      modifies this
      ensures Valid() && eligiblePlayers == old(eligiblePlayers)
      ensures |playerWagers| == |old(playerWagers)|
      ensures forall k :: 0 <= k < |playerWagers| ==>
                playerWagers[k] == if old(playerWagers[k]).playerIndex == playerIndex
                                   then old(playerWagers[k]).(answer := answer, isAnswered := true)
                                   else old(playerWagers[k])
    {
      var found := RecordOf(playerIndex);
      if found.Some? {
        var k := found.value;
        playerWagers := playerWagers[k := playerWagers[k].(answer := answer, isAnswered := true)];
      }
    }

    /** `finishWageringPhase`: every wager still at 0 becomes half its player's
        score. The check for another positive record of the same player never
        succeeds, since each player has one record. */
    method FinishWageringPhase(players: seq<Player>)
      requires Valid()
      requires forall k :: 0 <= k < |eligiblePlayers| ==> eligiblePlayers[k] < |players|
      modifies this
      ensures Valid() && eligiblePlayers == old(eligiblePlayers)
      ensures |playerWagers| == |old(playerWagers)|
      ensures forall k :: 0 <= k < |playerWagers| ==> playerWagers[k] == Defaulted(old(playerWagers[k]), players)
    {
      ghost var before := playerWagers;
      var k := 0;
      while k < |playerWagers|
        invariant 0 <= k <= |playerWagers| == |before| == |eligiblePlayers|
        invariant eligiblePlayers == old(eligiblePlayers)
        invariant forall j :: 0 <= j < k ==> playerWagers[j] == Defaulted(before[j], players)
        invariant forall j :: k <= j < |playerWagers| ==> playerWagers[j] == before[j]
        invariant forall j :: 0 <= j < |playerWagers| ==> playerWagers[j].playerIndex == eligiblePlayers[j]
      {
        var pw := playerWagers[k];
        assert forall j :: 0 <= j < |playerWagers| && playerWagers[j].playerIndex == pw.playerIndex ==> j == k;
        var seenPositive := exists j :: 0 <= j < |playerWagers| && playerWagers[j].playerIndex == pw.playerIndex
                                                               && playerWagers[j].wager > 0;
        if pw.wager == 0 && !seenPositive {
          playerWagers := playerWagers[k := pw.(wager := players[pw.playerIndex].score / 2)];
        }
        k := k + 1;
      }
    }

    /** `showResults`: each record is settled in turn against the players' scores. */
    method ShowResults(players: array<Player>)
      requires Valid()
      requires forall k :: 0 <= k < |eligiblePlayers| ==> eligiblePlayers[k] < players.Length
      modifies players
      ensures players[..] == SettleAll(old(players[..]), playerWagers, question)
    {
      ghost var before := players[..];
      var records := playerWagers;
      assert forall j :: 0 <= j < |records| ==> records[j].playerIndex < players.Length;
      var k := 0;
      while k < |records|
        invariant 0 <= k <= |records|
        invariant players[..] == SettleAll(before, records[..k], question)
      {
        SettleStep(before, records, k, question);
        SettleRecord(players, records[k], question);
        k := k + 1;
      }
      assert records[..k] == records;
    }
  }

  /** The final standings: the players array sorted in place by score, highest
      first, keeping the order of equal scores; it is a rearrangement of the players. */
  method FinalStandings(players: array<Player>)
    modifies players
    ensures players[..] == SortDesc(old(players[..]), ScoreOf)
    ensures SortedDesc(players[..], ScoreOf)
    ensures multiset(players[..]) == multiset(old(players[..]))
  {
    SortDescSorted(players[..], ScoreOf);
    SortDescPermutes(players[..], ScoreOf);
    SortInPlace(players, ScoreOf);
  }
}
