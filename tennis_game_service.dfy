/** The game service: plays a ball sequence from a new game, one point per
    ball, collects one output line per point and stops at the first win
    (`TennisGameService.playGame`). */
module GameService {
  import opened Wrappers
  import opened Strings
  import opened Scores
  import opened GameStates

  /** The player a ball credits: 'A' is player A, every other character B. */
  function BallToPlayer(ball: char): (p: Player)
    ensures p == A <==> ball == 'A'
  {
    if ball == 'A' then A else B
  }

  /** The players credited by the balls, in order. */
  function Players(balls: string): (ps: seq<Player>)
    ensures |ps| == |balls|
    ensures forall i :: 0 <= i < |balls| ==> ps[i] == BallToPlayer(balls[i])
  {
    seq(|balls|, i requires 0 <= i < |balls| => BallToPlayer(balls[i]))
  }

  /** The calls the service makes on its collaborators: the repository, the
      event publisher and the metrics counters. */
  datatype Event =
    | Saved(state: GameState)
    | PointScoredPublished(state: GameState, player: Player)
    | PointsScoredIncremented
    | GameFinishedPublished(state: GameState)
    | GamesPlayedIncremented
    | PlayerWinsIncremented(playerName: string)
  {
    /** Which collaborator call this is, regardless of its arguments. */
    function Kind(): EventKind {
      match this
      case Saved(_) => Save
      case PointScoredPublished(_, _) => PublishPointScored
      case PointsScoredIncremented => IncrementPointsScored
      case GameFinishedPublished(_) => PublishGameFinished
      case GamesPlayedIncremented => IncrementGamesPlayed
      case PlayerWinsIncremented(_) => IncrementPlayerWins
    }
  }

  datatype EventKind =
    | Save | PublishPointScored | IncrementPointsScored
    | PublishGameFinished | IncrementGamesPlayed | IncrementPlayerWins

  /** How many calls of kind `k` the log holds. */
  function Count(events: seq<Event>, k: EventKind): nat
    decreases |events|
  {
    if events == [] then 0 else (if events[0].Kind() == k then 1 else 0) + Count(events[1..], k)
  }

  /** How Java's "%s" renders a nullable player. */
  function WinnerText(winner: Option<Player>): string {
    match winner
    case Some(p) => p.Name()
    case None => "null"
  }

  /** The line announcing the winner of a finished game. */
  function WinMessage(st: GameState): string {
    "Player " + WinnerText(st.winner) + " wins the game"
  }

  /** The output line for the state reached after a ball. */
  function Entry(st: GameState): string {
    if st.isFinished then WinMessage(st) else st.displayScore
  }

  /** The collaborator calls made for the ball that led to `st`, scored by `p`. */
  function PointEvents(st: GameState, p: Player): seq<Event> {
    [Saved(st), PointScoredPublished(st, p), PointsScoredIncremented]
    + if st.isFinished
      then [GameFinishedPublished(st), GamesPlayedIncremented, PlayerWinsIncremented(WinnerText(st.winner))]
      else []
  }

  /** The output lines, the collaborator calls and the last state of a run. */
  datatype Run = Run(results: seq<string>, events: seq<Event>, final: GameState)

  /** The run that plays `balls` from `st`, stopping before the first ball
      that finds the game finished. */
  function Play(st: GameState, balls: string): Run
    decreases |balls|
  {
    if |balls| == 0 || st.isFinished then Run([], [], st)
    else
      var p := BallToPlayer(balls[0]);
      var next := st.AddPoint(p);
      var rest := Play(next, balls[1..]);
      Run([Entry(next)] + rest.results, PointEvents(next, p) + rest.events, rest.final)
  }

  /** Concatenation is associative; a hint kept out of line so that the
      loop's proof does not reason about sequences of game states unaided. */
  lemma Associative<T>(a: seq<T>, b: seq<T>, c: seq<T>)
    ensures a + (b + c) == (a + b) + c
  {
  }

  /** One ball of a run that goes on: its line and calls come first. */
  lemma PlayStep(st: GameState, balls: string)
    requires |balls| > 0 && !st.isFinished
    ensures var next := st.AddPoint(BallToPlayer(balls[0]));
            var rest := Play(next, balls[1..]);
            Play(st, balls).results == [Entry(next)] + rest.results
            && Play(st, balls).events == PointEvents(next, BallToPlayer(balls[0])) + rest.events
            && Play(st, balls).final == rest.final
  {
  }

  /** What is left of a run after one more ball: its line and calls move
      from the rest of the run to what has been collected. */
  lemma PlayOneMore(whole: Run, st: GameState, balls: string, i: nat, results: seq<string>, events: seq<Event>)
    requires i < |balls| && !st.isFinished
    requires whole.results == results + Play(st, balls[i..]).results
    requires whole.events == events + Play(st, balls[i..]).events
    ensures var p := BallToPlayer(balls[i]);
            var next := st.AddPoint(p);
            && whole.results == (results + [Entry(next)]) + Play(next, balls[i + 1..]).results
            && whole.events == (events + PointEvents(next, p)) + Play(next, balls[i + 1..]).events
  {
    var p := BallToPlayer(balls[i]);
    var next := st.AddPoint(p);
    PlayStep(st, balls[i..]);
    assert balls[i..][1..] == balls[i + 1..];
    var rest := Play(next, balls[i + 1..]);
    Associative(results, [Entry(next)], rest.results);
    Associative(events, PointEvents(next, p), rest.events);
  }

  /** One pass of the loop body of `playGame` on a game that is not over:
      the point the ball credits, the calls on the collaborators in the order
      they are made, and the line the point adds to the progression. */
  method PlayBall(gameState: GameState, ball: char) returns (next: GameState, line: string, calls: seq<Event>)
    ensures next == gameState.AddPoint(BallToPlayer(ball))
    ensures line == Entry(next)
    ensures calls == PointEvents(next, BallToPlayer(ball))
  {
    var player := BallToPlayer(ball);
    next := gameState.AddPoint(player);
    calls := [Saved(next), PointScoredPublished(next, player), PointsScoredIncremented];
    if next.isFinished {
      line := WinMessage(next);
      calls := calls + [GameFinishedPublished(next), GamesPlayedIncremented, PlayerWinsIncremented(next.winner.value.Name())];
    } else {
      line := next.displayScore;
    }
  }

  /** Plays `ballSequence` from a new game with id `gameId`, returning the
      score progression and the log of collaborator calls. */
  method PlayGame(ballSequence: string, gameId: string) returns (results: seq<string>, events: seq<Event>)
    ensures results == Play(Initial(gameId), ballSequence).results
    ensures events == Play(Initial(gameId), ballSequence).events
  {
    var gameState := Initial(gameId);
    ghost var whole := Play(gameState, ballSequence);
    results, events := [], [];
    var i := 0;
    while i < |ballSequence|
      invariant 0 <= i <= |ballSequence|
      invariant whole.results == results + Play(gameState, ballSequence[i..]).results
      invariant whole.events == events + Play(gameState, ballSequence[i..]).events
    {
      if gameState.isFinished {
        break;
      }
      PlayOneMore(whole, gameState, ballSequence, i, results, events);
      var line, calls;
      gameState, line, calls := PlayBall(gameState, ballSequence[i]);
      results := results + [line];
      events := events + calls;
      i := i + 1;
    }
  }

  /** Counting distributes over concatenation. */
  lemma {:induction false} CountAppend(a: seq<Event>, b: seq<Event>, k: EventKind)
    ensures Count(a + b, k) == Count(a, k) + Count(b, k)
    decreases |a|
  {
    if a == [] {
      assert a + b == b;
    } else {
      assert (a + b)[1..] == a[1..] + b;
      CountAppend(a[1..], b, k);
    }
  }

  /** The state after the first `n` balls have been played from `st`, one
      point per ball. Every state after at least one ball is consistent. */
  function StateAfter(st: GameState, balls: string, n: nat): (r: GameState)
    requires n <= |balls|
    ensures r.gameId == st.gameId
    ensures n > 0 || Consistent(st) ==> Consistent(r)
    decreases n
  {
    if n == 0 then st else StateAfter(st.AddPoint(BallToPlayer(balls[0])), balls[1..], n - 1)
  }

  /** The state after `n` balls is the replay of the players they credit, so
      its score counts the balls each player won. */
  lemma {:induction false} StateAfterIsReplay(st: GameState, balls: string, n: nat)
    requires n <= |balls|
    ensures StateAfter(st, balls, n) == Replay(st, Players(balls[..n]))
    decreases n
  {
    if n > 0 {
      StateAfterIsReplay(st.AddPoint(BallToPlayer(balls[0])), balls[1..], n - 1);
      PlayersOfPrefix(balls, n);
    } else {
      assert Players(balls[..0]) == [];
    }
  }

  /** The players of a non-empty prefix: the first ball's, then the rest's. */
  lemma PlayersOfPrefix(balls: string, n: nat)
    requires 0 < n <= |balls|
    ensures Players(balls[..n]) != []
    ensures Players(balls[..n])[0] == BallToPlayer(balls[0])
    ensures Players(balls[..n])[1..] == Players(balls[1..][..n - 1])
  {
  }

  /** A run processes one ball after another and stops at the first win:
      it ends in the state after as many balls as it has lines, and balls are
      left over only when that state is finished. A finished start plays nothing. */
  lemma {:induction false} PlayStopsAtFirstWin(st: GameState, balls: string)
    ensures var r := Play(st, balls);
            var n := |r.results|;
            && n <= |balls|
            && (n > 0 ==> !st.isFinished)
            && r.final == StateAfter(st, balls, n)
            && (n < |balls| ==> r.final.isFinished)
    decreases |balls|
  {
    if |balls| > 0 && !st.isFinished {
      var next := st.AddPoint(BallToPlayer(balls[0]));
      var tail := balls[1..];
      PlayStep(st, balls);
      PlayStopsAtFirstWin(next, tail);
      var r, rest := Play(st, balls), Play(next, tail);
      var n := |r.results|;
      assert n == |rest.results| + 1;
    }
  }

  /** Entry k of a run is the line of the state after the first k + 1 balls,
      and it comes from a state that was not finished after k balls. */
  lemma {:induction false} PlayEntry(st: GameState, balls: string, k: nat)
    requires k < |Play(st, balls).results| <= |balls|
    ensures Play(st, balls).results[k] == Entry(StateAfter(st, balls, k + 1))
    ensures k >= 1 ==> !StateAfter(st, balls, k).isFinished
    decreases k
  {
    var next := st.AddPoint(BallToPlayer(balls[0]));
    var tail := balls[1..];
    PlayStep(st, balls);
    var r, rest := Play(st, balls), Play(next, tail);
    assert StateAfter(st, balls, k + 1) == StateAfter(next, tail, k);
    if k == 0 {
      assert StateAfter(next, tail, 0) == next;
      assert r.results[0] == Entry(next);
    } else {
      assert r.results[k] == rest.results[k - 1];
      assert StateAfter(st, balls, k) == StateAfter(next, tail, k - 1);
      PlayStopsAtFirstWin(next, tail);
      PlayEntry(next, tail, k - 1);
    }
  }

  /** The calls for one ball: the three per-point calls once each, and the
      three finishing calls once each exactly when the ball finished the game. */
  lemma PointEventsCount(st: GameState, p: Player, k: EventKind)
    ensures Count(PointEvents(st, p), k)
            == if k in {Save, PublishPointScored, IncrementPointsScored} || st.isFinished then 1 else 0
  {
    var finish := if st.isFinished
      then [GameFinishedPublished(st), GamesPlayedIncremented, PlayerWinsIncremented(WinnerText(st.winner))]
      else [];
    CountAppend([Saved(st), PointScoredPublished(st, p), PointsScoredIncremented], finish, k);
    CountThree(Saved(st), PointScoredPublished(st, p), PointsScoredIncremented, k);
    if st.isFinished {
      CountThree(GameFinishedPublished(st), GamesPlayedIncremented, PlayerWinsIncremented(WinnerText(st.winner)), k);
    }
  }

  /** Counting in a log of one call. */
  lemma CountOne(e: Event, k: EventKind)
    ensures Count([e], k) == if e.Kind() == k then 1 else 0
  {
    assert [e][1..] == [];
  }

  /** Counting in a log of three calls. */
  lemma CountThree(x: Event, y: Event, z: Event, k: EventKind)
    ensures Count([x, y, z], k)
            == (if x.Kind() == k then 1 else 0) + (if y.Kind() == k then 1 else 0) + (if z.Kind() == k then 1 else 0)
  {
    assert [x, y, z] == [x] + ([y] + [z]);
    CountAppend([x], [y] + [z], k);
    CountAppend([y], [z], k);
    CountOne(x, k);
    CountOne(y, k);
    CountOne(z, k);
  }

  /** Whether a run ends in a win: 1 if it played a ball and its last state
      is finished, 0 otherwise. */
  function Won(r: Run): nat {
    if |r.results| > 0 && r.final.isFinished then 1 else 0
  }

  /** The calls of each kind in a run: one save, one point event and one
      point count per output line; one finish event, one games-played count
      and one win count if the run ends in a win, none otherwise. */
  lemma {:induction false} PlayCount(st: GameState, balls: string, k: EventKind)
    ensures Count(Play(st, balls).events, k)
            == if k in {Save, PublishPointScored, IncrementPointsScored} then |Play(st, balls).results|
               else Won(Play(st, balls))
    decreases |balls|
  {
    if |balls| > 0 && !st.isFinished {
      var p := BallToPlayer(balls[0]);
      var next := st.AddPoint(p);
      PlayStep(st, balls);
      PlayCount(next, balls[1..], k);
      var rest := Play(next, balls[1..]);
      assert next.isFinished ==> rest == Run([], [], next);
      CountAppend(PointEvents(next, p), rest.events, k);
      PointEventsCount(next, p, k);
    }
  }

  /** Every win count of a run names the winner of its last state. */
  lemma {:induction false} PlayWinsNamed(st: GameState, balls: string)
    ensures forall e :: e in Play(st, balls).events && e.PlayerWinsIncremented?
                        ==> e.playerName == WinnerText(Play(st, balls).final.winner)
    decreases |balls|
  {
    if |balls| > 0 && !st.isFinished {
      var p := BallToPlayer(balls[0]);
      var next := st.AddPoint(p);
      PlayStep(st, balls);
      PlayWinsNamed(next, balls[1..]);
      var rest := Play(next, balls[1..]);
      assert next.isFinished ==> rest == Run([], [], next);
    }
  }

  /** All the collaborator calls of a run, kind by kind, and the name each
      win count carries. */
  lemma PlayEvents(st: GameState, balls: string)
    ensures var r := Play(st, balls);
            && Count(r.events, Save) == |r.results|
            && Count(r.events, PublishPointScored) == |r.results|
            && Count(r.events, IncrementPointsScored) == |r.results|
            && Count(r.events, PublishGameFinished) == Won(r)
            && Count(r.events, IncrementGamesPlayed) == Won(r)
            && Count(r.events, IncrementPlayerWins) == Won(r)
            && (forall e :: e in r.events && e.PlayerWinsIncremented? ==> e.playerName == WinnerText(r.final.winner))
  {
    PlayCount(st, balls, Save);
    PlayCount(st, balls, PublishPointScored);
    PlayCount(st, balls, IncrementPointsScored);
    PlayCount(st, balls, PublishGameFinished);
    PlayCount(st, balls, IncrementGamesPlayed);
    PlayCount(st, balls, IncrementPlayerWins);
    PlayWinsNamed(st, balls);
  }

  /** No per-side label has a 'w'. */
  lemma LabelHasNoW(score: Score, p: Player)
    ensures 'w' !in score.GetDisplayScore(p)
  {
  }

  /** A line of two labels without 'w' has no 'w'. */
  lemma LineHasNoW(la: string, lb: string)
    requires 'w' !in la && 'w' !in lb
    ensures 'w' !in Line(la, lb)
  {
    assert 'w' !in "Player A : " && 'w' !in " / Player B : ";
  }

  /** No score line contains "wins the game": none of them has a 'w'. */
  lemma DisplayNeverAnnouncesWin(score: Score)
    ensures !Contains(FormatDisplayScore(score), "wins the game")
  {
    var line := FormatDisplayScore(score);
    DisplayIsLabels(score);
    LabelHasNoW(score, A);
    LabelHasNoW(score, B);
    LineHasNoW(score.GetDisplayScore(A), score.GetDisplayScore(B));
    MissingCharNotContained(line, "wins the game", 'w');
  }

  /** A's win line announces a win and mentions player A. */
  lemma WinLineA()
    ensures Contains("Player A wins the game", "wins the game")
    ensures Contains("Player A wins the game", "Player A")
  {
    assert OccursAt("Player A wins the game", "wins the game", 9);
    assert OccursAt("Player A wins the game", "Player A", 0);
  }

  /** B's win line announces a win and does not mention player A. */
  lemma WinLineB()
    ensures Contains("Player B wins the game", "wins the game")
    ensures !Contains("Player B wins the game", "Player A")
  {
    assert OccursAt("Player B wins the game", "wins the game", 9);
    MissingCharNotContained("Player B wins the game", "Player A", 'A');
  }

  /** A win line contains "wins the game", and "Player A" exactly when A won. */
  lemma WinMessageContents(p: Player)
    ensures Contains("Player " + p.Name() + " wins the game", "wins the game")
    ensures Contains("Player " + p.Name() + " wins the game", "Player A") <==> p == A
  {
    if p == A {
      assert "Player " + p.Name() + " wins the game" == "Player A wins the game";
      WinLineA();
    } else {
      assert "Player " + p.Name() + " wins the game" == "Player B wins the game";
      WinLineB();
    }
  }

  /** The progression of a game played from the start: at most one line per
      ball and exactly one per ball unless the game was won; a non-empty
      sequence gives a non-empty progression; every line but the last is the
      display score of an unfinished state; the last line announces a win
      exactly when the game was won, and then names the player with more points. */
  lemma Progression(gameId: string, balls: string)
    ensures var r := Play(Initial(gameId), balls);
            var n := |r.results|;
            && n <= |balls|
            && (!r.final.isFinished ==> n == |balls|)
            && (|balls| > 0 ==> n > 0)
            && Consistent(r.final)
            && (forall k :: 0 <= k < n - 1 ==>
                  var sk := StateAfter(Initial(gameId), balls, k + 1);
                  !sk.isFinished && r.results[k] == sk.displayScore
                  && !Contains(r.results[k], "wins the game"))
            && (n > 0 ==> (Contains(r.results[n - 1], "wins the game") <==> r.final.isFinished))
            && (n > 0 && r.final.isFinished ==>
                  r.results[n - 1] == "Player " + r.final.score.GetWinner().value.Name() + " wins the game")
  {
    var st := Initial(gameId);
    var r := Play(st, balls);
    var n := |r.results|;
    PlayStopsAtFirstWin(st, balls);
    forall k | 0 <= k < n
      ensures r.results[k] == Entry(StateAfter(st, balls, k + 1))
      ensures k >= 1 ==> !StateAfter(st, balls, k).isFinished
    {
      PlayEntry(st, balls, k);
    }
    if |balls| > 0 {
      PlayStep(st, balls);
    }
    forall j | 1 <= j <= n
      ensures !Contains(StateAfter(st, balls, j).displayScore, "wins the game")
    {
      DisplayNeverAnnouncesWin(StateAfter(st, balls, j).score);
    }
    if n > 0 && r.final.isFinished {
      WinMessageContents(r.final.winner.value);
    }
  }

  /** Each line of a game played from the start is the output of a state
      whose score counts, for each player, the balls credited to them up to
      and including that line's ball; the final score counts the balls played. */
  lemma LineScores(gameId: string, balls: string)
    ensures var r := Play(Initial(gameId), balls);
            var n := |r.results|;
            && n <= |balls|
            && (forall k :: 0 <= k < n ==>
                  r.results[k] == Entry(StateAfter(Initial(gameId), balls, k + 1))
                  && StateAfter(Initial(gameId), balls, k + 1).score
                     == Score(PointsWon(Players(balls[..k + 1]), A), PointsWon(Players(balls[..k + 1]), B)))
            && r.final.score == Score(PointsWon(Players(balls[..n]), A), PointsWon(Players(balls[..n]), B))
  {
    var st := Initial(gameId);
    var n := |Play(st, balls).results|;
    PlayStopsAtFirstWin(st, balls);
    forall k | 0 <= k < n
      ensures Play(st, balls).results[k] == Entry(StateAfter(st, balls, k + 1))
      ensures StateAfter(st, balls, k + 1).score
              == Score(PointsWon(Players(balls[..k + 1]), A), PointsWon(Players(balls[..k + 1]), B))
    {
      PlayEntry(st, balls, k);
      StateAfterIsReplay(st, balls, k + 1);
      Reachable(gameId, Players(balls[..k + 1]));
    }
    StateAfterIsReplay(st, balls, n);
    Reachable(gameId, Players(balls[..n]));
  }

  /** The output line for a score reached after a ball: the announcement of
      the winner once the score is won, the display line before. */
  function ScoreLine(s: Score): string {
    if s.IsGameWon() then "Player " + s.GetWinner().value.Name() + " wins the game"
    else FormatDisplayScore(s)
  }

  /** The progression computed on scores alone, without game states or
      collaborators: one line per ball until a score is won. */
  function ScoreRun(s: Score, balls: string): seq<string>
    decreases |balls|
  {
    if |balls| == 0 || s.IsGameWon() then []
    else
      var next := s.AddPoint(BallToPlayer(balls[0]));
      [ScoreLine(next)] + ScoreRun(next, balls[1..])
  }

  /** From a consistent state, the service's progression is the one computed
      on scores alone: the derived fields of the states add nothing to it. */
  lemma {:induction false} PlayIsScoreRun(st: GameState, balls: string)
    requires Consistent(st)
    ensures Play(st, balls).results == ScoreRun(st.score, balls)
    decreases |balls|
  {
    if |balls| > 0 && !st.isFinished {
      var next := st.AddPoint(BallToPlayer(balls[0]));
      PlayStep(st, balls);
      PlayIsScoreRun(next, balls[1..]);
      assert Entry(next) == ScoreLine(next.score);
    }
  }
}
