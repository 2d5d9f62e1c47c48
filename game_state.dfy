/** The immutable state of one game: its score plus the fields derived from
    it on every point (the `GameState` record). */
module GameStates {
  import opened Wrappers
  import opened Scores

  /** A game's state. `winner` is Java's nullable `Player`. */
  datatype GameState = GameState(
    gameId: string,
    score: Score,
    isFinished: bool,
    winner: Option<Player>,
    displayScore: string)
  {
    /** The state after player `p` wins a point: the score moves on and every
        derived field is computed afresh from the new score. */
    function AddPoint(p: Player): (r: GameState)
      ensures r.gameId == gameId
      ensures r.score == score.AddPoint(p)
      ensures r.isFinished == r.score.IsGameWon()
      ensures r.winner.Some? <==> r.isFinished
    {
      var newScore := score.AddPoint(p);
      var finished := newScore.IsGameWon();
      // GetWinner fails only on a game that is not won, and it is asked only
      // when the game is won: the verifier checks that `.value` exists here.
      var gameWinner := if finished then Some(newScore.GetWinner().value) else None;
      GameState(gameId, newScore, finished, gameWinner, FormatDisplayScore(newScore))
    }
  }

  /** The derived fields agree with the score: finished exactly when the
      score is won, a winner exactly when finished (the one GetWinner names),
      and the display string formatted from the score. */
  predicate Consistent(st: GameState) {
    && st.isFinished == st.score.IsGameWon()
    && (st.winner.Some? <==> st.isFinished)
    && (st.winner.Some? ==> st.score.GetWinner() == Success(st.winner.value))
    && st.displayScore == FormatDisplayScore(st.score)
  }

  /** A point always leads to a consistent state, whatever the state before. */
  lemma AddPointConsistent(st: GameState, p: Player)
    ensures Consistent(st.AddPoint(p))
  {
  }

  /** The state a new game starts in. */
  function Initial(gameId: string): (r: GameState)
    ensures r.gameId == gameId && r.score == Score(0, 0)
    ensures !r.isFinished && r.winner == None
    ensures r.displayScore == "Player A : 0 / Player B : 0"
    ensures Consistent(r)
  {
    var score := Score(0, 0);
    GameState(gameId, score, false, None, FormatDisplayScore(score))
  }

  /** The display line built from the two per-side labels. */
  function Line(labelA: string, labelB: string): string {
    "Player A : " + labelA + " / Player B : " + labelB
  }

  /** The lines the formatter writes out for deuce and for either advantage
      are lines of two labels. */
  lemma DeuceLine()
    ensures Line("Deuce", "Deuce") == "Player A : Deuce / Player B : Deuce"
  {
  }

  lemma AdvantageALine()
    ensures Line("Advantage", "40") == "Player A : Advantage / Player B : 40"
  {
  }

  lemma AdvantageBLine()
    ensures Line("40", "Advantage") == "Player A : 40 / Player B : Advantage"
  {
  }

  /** The full display line: the deuce line, then either advantage line,
      then the line of the two per-side labels. */
  function FormatDisplayScore(score: Score): string {
    if score.IsDeuce() then "Player A : Deuce / Player B : Deuce"
    else if score.HasAdvantage(A) then "Player A : Advantage / Player B : 40"
    else if score.HasAdvantage(B) then "Player A : 40 / Player B : Advantage"
    else Line(score.GetDisplayScore(A), score.GetDisplayScore(B))
  }

  /** The lines written out for deuce and for either advantage agree with
      the per-side labels: every display line is the line of the two labels. */
  lemma DisplayIsLabels(score: Score)
    ensures FormatDisplayScore(score) == Line(score.GetDisplayScore(A), score.GetDisplayScore(B))
  {
    if score.IsDeuce() {
      DeuceLine();
    } else if score.HasAdvantage(A) {
      AdvantageALine();
    } else if score.HasAdvantage(B) {
      AdvantageBLine();
    }
  }

  /** The state after the points `ps` are played in order from `st`. */
  function Replay(st: GameState, ps: seq<Player>): GameState
    decreases |ps|
  {
    if ps == [] then st else Replay(st.AddPoint(ps[0]), ps[1..])
  }

  /** How many of the points `ps` player `p` won. */
  function PointsWon(ps: seq<Player>, p: Player): nat
    decreases |ps|
  {
    if ps == [] then 0 else (if ps[0] == p then 1 else 0) + PointsWon(ps[1..], p)
  }

  /** Playing `ps` from `st` keeps the game id, adds each player's points
      won to the score, and keeps the derived fields consistent. */
  lemma {:induction false} ReplayCounts(st: GameState, ps: seq<Player>)
    requires Consistent(st)
    ensures Replay(st, ps).gameId == st.gameId
    ensures Replay(st, ps).score
            == Score(st.score.playerAPoints + PointsWon(ps, A), st.score.playerBPoints + PointsWon(ps, B))
    ensures Consistent(Replay(st, ps))
    decreases |ps|
  {
    if ps != [] {
      var next := st.AddPoint(ps[0]);
      AddPointConsistent(st, ps[0]);
      ReplayCounts(next, ps[1..]);
      assert Replay(st, ps) == Replay(next, ps[1..]);
      assert PointsWon(ps, A) == (if ps[0] == A then 1 else 0) + PointsWon(ps[1..], A);
      assert PointsWon(ps, B) == (if ps[0] == B then 1 else 0) + PointsWon(ps[1..], B);
    }
  }

  /** Every state reachable from a new game is consistent, and its score
      counts the points each player won. */
  lemma Reachable(gameId: string, ps: seq<Player>)
    ensures Consistent(Replay(Initial(gameId), ps))
    ensures Replay(Initial(gameId), ps).score == Score(PointsWon(ps, A), PointsWon(ps, B))
    ensures Replay(Initial(gameId), ps).gameId == gameId
  {
    ReplayCounts(Initial(gameId), ps);
  }

  /** The advantage-then-deuce example of the unit tests: A, A, A, B, B, B, A
      reaches 4-3 with advantage A, and a point for B then shows deuce again
      and the game goes on. */
  lemma ReturnToDeuce(gameId: string)
    ensures var st := Initial(gameId).AddPoint(A).AddPoint(A).AddPoint(A)
                        .AddPoint(B).AddPoint(B).AddPoint(B).AddPoint(A);
            && st.score == Score(4, 3)
            && st.displayScore == "Player A : Advantage / Player B : 40"
            && st.AddPoint(B).score == Score(4, 4)
            && st.AddPoint(B).displayScore == "Player A : Deuce / Player B : Deuce"
            && !st.AddPoint(B).isFinished
  {
    var s3 := Initial(gameId).AddPoint(A).AddPoint(A).AddPoint(A);
    assert s3.score == Score(3, 0);
    var s6 := s3.AddPoint(B).AddPoint(B).AddPoint(B);
    assert s6.score == Score(3, 3);
    var s7 := s6.AddPoint(A);
    assert s7.score == Score(4, 3);
    assert Score(4, 3).HasAdvantage(A) && !Score(4, 3).IsDeuce();
    AdvantageALine();
    assert s7.AddPoint(B).score == Score(4, 4);
    assert Score(4, 4).IsDeuce();
    DeuceLine();
  }
}
