/**
  The player records the scenes read and update. Their type belongs to the turn
  engine, which is not part of this model; only the fields the scenes use appear.
*/
module Players {
  import opened Wrappers
  import opened Seqs

  datatype Player = Player(name: string, score: int, isHuman: bool, difficulty: Option<string>)

  /** `players.map(p => p.score)` */
  function Scores(players: seq<Player>): (ss: seq<int>)
    ensures |ss| == |players|
    ensures forall k :: 0 <= k < |players| ==> ss[k] == players[k].score
  {
    if players == [] then [] else [players[0].score] + Scores(players[1..])
  }

  /** `Math.max(...players.map(p => p.score))`, with `None` for `-Infinity`. */
  function LeadingScore(players: seq<Player>): (m: Option<int>)
    ensures m.None? <==> players == []
    ensures m.Some? ==> forall k :: 0 <= k < |players| ==> players[k].score <= m.value
    ensures m.Some? ==> exists k :: 0 <= k < |players| && players[k].score == m.value
  {
    var m := Max(Scores(players));
    assert m.Some? ==> exists k :: 0 <= k < |players| && players[k].score == m.value by {
      if m.Some? {
        var ss := Scores(players);
        var k :| 0 <= k < |ss| && ss[k] == m.value;
      }
    }
    m
  }

  /** `score > leadingScore * 0.8`; against `-Infinity` (no players) it always holds. */
  predicate CloseToLead(score: int, players: seq<Player>) {
    match LeadingScore(players)
    case None => true
    case Some(lead) => score as real > lead as real * 0.8
  }

  /** The leader counts as close to the lead exactly when the leading score is positive:
      with a negative lead, 80% of it lies above it. */
  lemma LeaderCloseToLead(players: seq<Player>, k: nat)
    requires k < |players| && LeadingScore(players) == Some(players[k].score)
    ensures CloseToLead(players[k].score, players) <==> players[k].score > 0
  {
  }

  /** `difficulty || "medium"`: an absent or empty difficulty reads as medium. */
  function OrMedium(difficulty: Option<string>): (d: string)
    ensures d != ""
    ensures difficulty.Some? && difficulty.value != "" ==> d == difficulty.value
    ensures difficulty.None? || difficulty.value == "" ==> d == "medium"
  {
    if difficulty.None? || difficulty.value == "" then "medium" else difficulty.value
  }
}
