/** The tennis scoring rules on a pair of point counts (the `Score` record)
    and the two players they are counted for. */
module Scores {
  import opened Wrappers

  /** The two players of a game. */
  datatype Player = A | B {

    /** The enum constant's name, as `Player.name()` renders it. */
    function Name(): (r: string)
      ensures r == "A" <==> this == A
      ensures r == "B" <==> this == B
    {
      match this
      case A => "A"
      case B => "B"
    }

    /** The other player. */
    function Opponent(): (r: Player)
      ensures r != this
    {
      match this
      case A => B
      case B => A
    }
  }

  /** The only failure of the scoring rules: asking for the winner of a game
      that is not won yet (Java's IllegalStateException). */
  datatype ScoreError = IllegalState(message: string)

  /** The per-side labels of ordinary play, indexed by point count. */
  const POINT_CALLS: seq<string> := ["0", "15", "30", "40"]

  /** The points of each player. The counts are unbounded here; Java's
      `int` overflow is not modelled. */
  datatype Score = Score(playerAPoints: nat, playerBPoints: nat) {

    /** The points of player `p`. */
    function Points(p: Player): nat {
      match p
      case A => playerAPoints
      case B => playerBPoints
    }

    /** Both players have at least three points: deuce and advantage territory. */
    predicate BothAtForty() {
      playerAPoints >= 3 && playerBPoints >= 3
    }

    /** The label shown for player `p`. */
    function GetDisplayScore(p: Player): (r: string)
      ensures r == "Deuce" <==> IsDeuce()
      ensures r == "Advantage" <==> HasAdvantage(p)
      ensures BothAtForty() && !IsDeuce() && !HasAdvantage(p) ==> r == "40"
      ensures !BothAtForty() ==> r == POINT_CALLS[if Points(p) <= 3 then Points(p) else 3]
      ensures r == "0" || r == "15" || r == "30" || r == "40" || r == "Deuce" || r == "Advantage"
    {
      var points := Points(p);
      if playerAPoints >= 3 && playerBPoints >= 3 then
        if IsDeuce() then "Deuce"
        else if HasAdvantage(p) then "Advantage"
        else "40"
      else
        match points
        case 0 => "0"
        case 1 => "15"
        case 2 => "30"
        case 3 => "40"
        case _ => "40"
    }

    /** The score after player `p` wins a point. */
    function AddPoint(p: Player): (r: Score)
      ensures r.Points(p) == Points(p) + 1
      ensures r.Points(p.Opponent()) == Points(p.Opponent())
    {
      match p
      case A => Score(playerAPoints + 1, playerBPoints)
      case B => Score(playerAPoints, playerBPoints + 1)
    }

    /** Both players have three points or more, and the same number. */
    predicate IsDeuce()
    {
      playerAPoints >= 3 && playerBPoints >= 3 && playerAPoints == playerBPoints
    }

    /** Both players have three points or more, and `p` leads by exactly one. */
    predicate HasAdvantage(p: Player)
    {
      if playerAPoints < 3 || playerBPoints < 3 then false
      else
        match p
        case A => playerAPoints == playerBPoints + 1
        case B => playerBPoints == playerAPoints + 1
    }

    /** The larger count is four or more and the counts differ by two or more. */
    predicate IsGameWon() {
      var max := if playerAPoints >= playerBPoints then playerAPoints else playerBPoints;
      var diff := if playerAPoints >= playerBPoints then playerAPoints - playerBPoints
                  else playerBPoints - playerAPoints;
      if max >= 4 then diff >= 2 else false
    }

    /** The winner of a won game; an IllegalState error otherwise. */
    function GetWinner(): (r: Result<Player, ScoreError>)
      ensures r.Success? <==> IsGameWon()
      ensures r.Success? ==> Points(r.value) >= 4 && Points(r.value) >= Points(r.value.Opponent()) + 2
      ensures r.Failure? ==> r.error == IllegalState("Game is not won yet")
    {
      if !IsGameWon() then Failure(IllegalState("Game is not won yet"))
      else Success(if playerAPoints > playerBPoints then A else B)
    }
  }

  /** The deuce examples of the unit tests: only a tie at three or more is deuce. */
  lemma DeuceExamples()
    ensures !Score(3, 2).IsDeuce() && !Score(2, 3).IsDeuce() && !Score(4, 3).IsDeuce()
    ensures Score(3, 3).IsDeuce() && Score(4, 4).IsDeuce() && Score(5, 5).IsDeuce()
  {
  }

  /** Deuce and advantage in terms of each player's points: deuce is a tie
      with both at three or more, and an advantage a lead of exactly one with
      both at three or more. */
  lemma DeuceAndAdvantageByPoints(s: Score, p: Player)
    ensures s.IsDeuce() <==> s.BothAtForty() && s.Points(p) == s.Points(p.Opponent())
    ensures s.HasAdvantage(p) <==> s.BothAtForty() && s.Points(p) == s.Points(p.Opponent()) + 1
  {
  }

  /** A game is won exactly when some player has four points or more and
      leads by two or more: the rule stated for each player in turn, without
      the maximum and the absolute difference. */
  lemma WonByPoints(s: Score)
    ensures s.IsGameWon()
            <==> (s.Points(A) >= 4 && s.Points(A) >= s.Points(B) + 2)
                 || (s.Points(B) >= 4 && s.Points(B) >= s.Points(A) + 2)
  {
  }

  /** At most one player has the advantage, and an advantage is never deuce. */
  lemma AdvantageExclusive(s: Score, p: Player)
    ensures !(s.HasAdvantage(p) && s.HasAdvantage(p.Opponent()))
    ensures s.HasAdvantage(p) ==> !s.IsDeuce()
  {
  }

  /** The game-won examples of the unit tests. */
  lemma GameWonExamples()
    ensures !Score(3, 3).IsGameWon() && !Score(4, 3).IsGameWon() && !Score(3, 4).IsGameWon()
    ensures !Score(4, 4).IsGameWon()
    ensures Score(4, 0).IsGameWon() && Score(4, 1).IsGameWon() && Score(4, 2).IsGameWon()
    ensures Score(0, 4).IsGameWon() && Score(1, 4).IsGameWon() && Score(2, 4).IsGameWon()
    ensures Score(5, 3).IsGameWon() && Score(3, 5).IsGameWon()
    ensures Score(4, 2).GetWinner() == Success(A) && Score(2, 4).GetWinner() == Success(B)
    ensures Score(3, 3).GetWinner() == Failure(IllegalState("Game is not won yet"))
  {
  }

  /** The advantage examples of the unit tests. */
  lemma AdvantageExamples()
    ensures Score(4, 3).HasAdvantage(A) && Score(5, 4).HasAdvantage(A) && !Score(4, 3).HasAdvantage(B)
    ensures Score(3, 4).HasAdvantage(B) && Score(4, 5).HasAdvantage(B) && !Score(3, 4).HasAdvantage(A)
  {
  }

  /** A won score is neither deuce nor an advantage, so its labels are plain. */
  lemma WonIsNeitherDeuceNorAdvantage(s: Score)
    requires s.IsGameWon()
    ensures !s.IsDeuce() && !s.HasAdvantage(A) && !s.HasAdvantage(B)
  {
  }

  /** A point decides a game that is not yet won exactly when the scorer already
      has at least three points and is ahead; the scorer is then the winner. */
  lemma WinningPoint(s: Score, p: Player)
    requires !s.IsGameWon()
    ensures s.AddPoint(p).IsGameWon() <==> s.Points(p) >= 3 && s.Points(p) > s.Points(p.Opponent())
    ensures s.AddPoint(p).IsGameWon() ==> s.AddPoint(p).GetWinner() == Success(p)
  {
  }

  /** From deuce, the scorer of the next point has the advantage. */
  lemma DeuceThenAdvantage(s: Score, p: Player)
    requires s.IsDeuce()
    ensures s.AddPoint(p).HasAdvantage(p) && !s.AddPoint(p).IsGameWon()
  {
  }

  /** From an advantage, the leader's point wins the game and the other
      player's point brings the score back to deuce. */
  lemma AdvantageResolves(s: Score, p: Player)
    requires s.HasAdvantage(p)
    ensures s.AddPoint(p).GetWinner() == Success(p)
    ensures s.AddPoint(p.Opponent()).IsDeuce()
  {
  }

  /** Nothing stops `AddPoint` on a won score, and the result need not be
      won any more: the service must stop at the first win. */
  lemma PointAfterWinCanUndoIt()
    ensures Score(4, 2).IsGameWon() && !Score(4, 2).AddPoint(B).IsGameWon()
  {
  }

  /** Winning one's first four points shows 15, 30, 40 and then a win. */
  lemma FourStraightPoints(p: Player)
    ensures var s1 := Score(0, 0).AddPoint(p);
            var s2 := s1.AddPoint(p);
            var s3 := s2.AddPoint(p);
            && s1.GetDisplayScore(p) == "15" && s2.GetDisplayScore(p) == "30"
            && s3.GetDisplayScore(p) == "40" && !s3.IsGameWon()
            && s3.AddPoint(p).GetWinner() == Success(p)
  {
  }
}
