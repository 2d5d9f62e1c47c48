/** The game service's worked examples: the ball sequences of its unit tests,
    with the exact lines they produce and the collaborator calls they make. */
module ServiceExamples {
  import opened Strings
  import opened Scores
  import opened GameStates
  import opened GameService

  // The display lines the examples pass through, one score each.

  lemma Display10()
    ensures FormatDisplayScore(Score(1, 0)) == "Player A : 15 / Player B : 0"
  {
  }

  lemma Display20()
    ensures FormatDisplayScore(Score(2, 0)) == "Player A : 30 / Player B : 0"
  {
  }

  lemma Display30()
    ensures FormatDisplayScore(Score(3, 0)) == "Player A : 40 / Player B : 0"
  {
  }

  lemma Display11()
    ensures FormatDisplayScore(Score(1, 1)) == "Player A : 15 / Player B : 15"
  {
  }

  lemma Display21()
    ensures FormatDisplayScore(Score(2, 1)) == "Player A : 30 / Player B : 15"
  {
  }

  lemma Display22()
    ensures FormatDisplayScore(Score(2, 2)) == "Player A : 30 / Player B : 30"
  {
  }

  lemma Display32()
    ensures FormatDisplayScore(Score(3, 2)) == "Player A : 40 / Player B : 30"
  {
  }

  lemma AWins()
    ensures "Player " + A.Name() + " wins the game" == "Player A wins the game"
  {
  }

  /** The sequence of lines for four straight points to A. */
  function StraightGameLines(): seq<string> {
    ["Player A : 15 / Player B : 0", "Player A : 30 / Player B : 0",
     "Player A : 40 / Player B : 0", "Player A wins the game"]
  }

  /** From 0-0, four or more balls for A give the straight game's lines: the
      fourth ball wins and the rest are ignored. */
  lemma StraightGameRun(extra: string)
    ensures ScoreRun(Score(0, 0), "AAAA" + extra) == StraightGameLines()
  {
    var balls := "AAAA" + extra;
    Display10(); Display20(); Display30(); AWins();
    assert balls[1..][1..][1..][1..] == extra;
    assert ScoreRun(Score(4, 0), extra) == [];
    assert ScoreRun(Score(3, 0), balls[1..][1..][1..]) == ["Player A wins the game"];
    assert ScoreRun(Score(2, 0), balls[1..][1..]) == ["Player A : 40 / Player B : 0"] + ScoreRun(Score(3, 0), balls[1..][1..][1..]);
    assert ScoreRun(Score(1, 0), balls[1..]) == ["Player A : 30 / Player B : 0"] + ScoreRun(Score(2, 0), balls[1..][1..]);
    assert ScoreRun(Score(0, 0), balls) == ["Player A : 15 / Player B : 0"] + ScoreRun(Score(1, 0), balls[1..]);
  }

  /** The first two balls of "ABAB..." take the game from 0-0 to 15-15. */
  lemma OpeningAB(rest: string)
    ensures ScoreRun(Score(0, 0), "AB" + rest)
            == ["Player A : 15 / Player B : 0", "Player A : 15 / Player B : 15"] + ScoreRun(Score(1, 1), rest)
  {
    var balls := "AB" + rest;
    Display10(); Display11();
    assert balls[1..][1..] == rest;
    assert ScoreRun(Score(1, 0), balls[1..]) == ["Player A : 15 / Player B : 15"] + ScoreRun(Score(1, 1), rest);
  }

  /** From 15-15, "AB" goes to 30-15 and then 30-30. */
  lemma MiddleAB(rest: string)
    ensures ScoreRun(Score(1, 1), "AB" + rest)
            == ["Player A : 30 / Player B : 15", "Player A : 30 / Player B : 30"] + ScoreRun(Score(2, 2), rest)
  {
    var balls := "AB" + rest;
    Display21(); Display22();
    assert balls[1..][1..] == rest;
    assert ScoreRun(Score(2, 1), balls[1..]) == ["Player A : 30 / Player B : 30"] + ScoreRun(Score(2, 2), rest);
  }

  /** The first four balls of "ABAB..." take the game from 0-0 to 30-30. */
  lemma OpeningABAB(rest: string)
    ensures ScoreRun(Score(0, 0), "ABAB" + rest)
            == ["Player A : 15 / Player B : 0", "Player A : 15 / Player B : 15",
                "Player A : 30 / Player B : 15", "Player A : 30 / Player B : 30"]
               + ScoreRun(Score(2, 2), rest)
  {
    assert "ABAB" + rest == "AB" + ("AB" + rest);
    OpeningAB("AB" + rest);
    MiddleAB(rest);
  }

  /** From 30-30, "AA" goes to 40-30 and then wins for A. */
  lemma FinishAA()
    ensures ScoreRun(Score(2, 2), "AA") == ["Player A : 40 / Player B : 30", "Player A wins the game"]
  {
    Display32(); AWins();
    assert "AA"[1..] == "A";
    assert ScoreRun(Score(4, 2), "") == [];
    assert ScoreRun(Score(3, 2), "A") == ["Player A wins the game"];
  }

  /** From 30-30, "AB" goes to 40-30 and then to deuce. */
  lemma FinishAB()
    ensures ScoreRun(Score(2, 2), "AB") == ["Player A : 40 / Player B : 30", "Player A : Deuce / Player B : Deuce"]
  {
    Display32();
    assert "AB"[1..] == "B";
    assert ScoreRun(Score(3, 3), "") == [];
    assert ScoreRun(Score(3, 2), "B") == ["Player A : Deuce / Player B : Deuce"];
  }

  /** From 30-30, "ABA" goes to 40-30, deuce, and then advantage A. */
  lemma FinishABA()
    ensures ScoreRun(Score(2, 2), "ABA")
            == ["Player A : 40 / Player B : 30", "Player A : Deuce / Player B : Deuce",
                "Player A : Advantage / Player B : 40"]
  {
    Display32();
    assert "ABA"[1..] == "BA" && "BA"[1..] == "A";
    assert ScoreRun(Score(4, 3), "") == [];
    assert ScoreRun(Score(3, 3), "A") == ["Player A : Advantage / Player B : 40"];
    assert ScoreRun(Score(3, 2), "BA") == ["Player A : Deuce / Player B : Deuce"] + ScoreRun(Score(3, 3), "A");
  }

  /** The game service of a new game. */
  function Played(gameId: string, balls: string): Run {
    Play(Initial(gameId), balls)
  }

  /** "AAAA": four lines ending in A's win; four saves, point events and point
      counts; one finish event, one games-played count, one win count for "A". */
  lemma SimpleGame(gameId: string)
    ensures var r := Played(gameId, "AAAA");
            && r.results == StraightGameLines()
            && Count(r.events, Save) == 4
            && Count(r.events, PublishPointScored) == 4
            && Count(r.events, IncrementPointsScored) == 4
            && Count(r.events, PublishGameFinished) == 1
            && Count(r.events, IncrementGamesPlayed) == 1
            && Count(r.events, IncrementPlayerWins) == 1
            && (forall e :: e in r.events && e.PlayerWinsIncremented? ==> e.playerName == "A")
  {
    var r := Played(gameId, "AAAA");
    PlayIsScoreRun(Initial(gameId), "AAAA");
    StraightGameRun("");
    assert "AAAA" + "" == "AAAA";
    Progression(gameId, "AAAA");
    PlayEvents(Initial(gameId), "AAAA");
    WinAnnouncement(r.results[3]);
    assert r.final.isFinished;
  }

  /** "Player A wins the game" announces a win. */
  lemma WinAnnouncement(line: string)
    requires line == "Player A wins the game"
    ensures Contains(line, "wins the game")
  {
    assert OccursAt(line, "wins the game", 9);
  }

  /** "ABABAA", the kata's example: 15-0, 15-15, 30-15, 30-30, 40-30, then A wins. */
  lemma KataGame(gameId: string)
    ensures Played(gameId, "ABABAA").results
            == ["Player A : 15 / Player B : 0", "Player A : 15 / Player B : 15",
                "Player A : 30 / Player B : 15", "Player A : 30 / Player B : 30",
                "Player A : 40 / Player B : 30", "Player A wins the game"]
  {
    assert ScoreRun(Score(0, 0), "ABABAA")
           == ["Player A : 15 / Player B : 0", "Player A : 15 / Player B : 15",
               "Player A : 30 / Player B : 15", "Player A : 30 / Player B : 30",
               "Player A : 40 / Player B : 30", "Player A wins the game"] by {
      assert "ABABAA" == "ABAB" + "AA";
      OpeningABAB("AA");
      FinishAA();
    }
    PlayIsScoreRun(Initial(gameId), "ABABAA");
  }

  /** "ABABAB": six lines ending at deuce. */
  lemma DeuceRun(gameId: string)
    ensures Played(gameId, "ABABAB").results
            == ["Player A : 15 / Player B : 0", "Player A : 15 / Player B : 15",
                "Player A : 30 / Player B : 15", "Player A : 30 / Player B : 30",
                "Player A : 40 / Player B : 30", "Player A : Deuce / Player B : Deuce"]
  {
    assert ScoreRun(Score(0, 0), "ABABAB")
           == ["Player A : 15 / Player B : 0", "Player A : 15 / Player B : 15",
               "Player A : 30 / Player B : 15", "Player A : 30 / Player B : 30",
               "Player A : 40 / Player B : 30", "Player A : Deuce / Player B : Deuce"] by {
      assert "ABABAB" == "ABAB" + "AB";
      OpeningABAB("AB");
      FinishAB();
    }
    PlayIsScoreRun(Initial(gameId), "ABABAB");
  }

  /** "ABABAB" ends at deuce, so the game is not finished: no finish event
      and no games-played count. */
  lemma DeuceGame(gameId: string)
    ensures var r := Played(gameId, "ABABAB");
            && |r.results| == 6
            && r.results[5] == "Player A : Deuce / Player B : Deuce"
            && !r.final.isFinished
            && Count(r.events, PublishGameFinished) == 0
            && Count(r.events, IncrementGamesPlayed) == 0
  {
    var r := Played(gameId, "ABABAB");
    DeuceRun(gameId);
    Progression(gameId, "ABABAB");
    PlayEvents(Initial(gameId), "ABABAB");
    DeuceIsNoWin(r.results[5]);
  }

  /** The deuce line announces no win. */
  lemma DeuceIsNoWin(line: string)
    requires line == "Player A : Deuce / Player B : Deuce"
    ensures !Contains(line, "wins the game")
  {
    DeuceLine();
    LineHasNoW("Deuce", "Deuce");
    MissingCharNotContained(line, "wins the game", 'w');
  }

  /** "ABABABA": seven lines ending at advantage A. */
  lemma AdvantageGame(gameId: string)
    ensures var r := Played(gameId, "ABABABA");
            && |r.results| == 7
            && r.results[6] == "Player A : Advantage / Player B : 40"
  {
    PlayIsScoreRun(Initial(gameId), "ABABABA");
    assert "ABABABA" == "ABAB" + "ABA";
    OpeningABAB("ABA");
    FinishABA();
  }

  /** "AAAAAA": the game is won at the fourth ball and the last two balls
      are not played. */
  lemma StopsWhenFinished(gameId: string)
    ensures Played(gameId, "AAAAAA").results == StraightGameLines()
  {
    assert ScoreRun(Score(0, 0), "AAAAAA") == StraightGameLines() by {
      assert "AAAAAA" == "AAAA" + "AA";
      StraightGameRun("AA");
    }
    PlayIsScoreRun(Initial(gameId), "AAAAAA");
  }
}
