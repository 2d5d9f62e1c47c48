/** The use case behind the HTTP endpoint: plays a ball sequence and turns
    the progression of lines back into a structured response, reading the
    finished flag and the winner off the last line (`PlayTennisGameUseCase`). */
module UseCase {
  import opened Wrappers
  import opened Strings
  import opened Scores
  import opened GameStates
  import opened GameService

  /** The response record. `winner` is Java's nullable `String`. */
  datatype GameResponse = GameResponse(
    gameId: string,
    scoreProgression: seq<string>,
    isFinished: bool,
    winner: Option<string>)

  /** The one failure: `getLast` on an empty progression throws
      NoSuchElementException. */
  datatype UseCaseError = NoSuchElement

  /** The request validation: a non-blank sequence of 'A' and 'B' only. */
  predicate ValidBallSequence(balls: string) {
    |balls| > 0 && forall i :: 0 <= i < |balls| ==> balls[i] == 'A' || balls[i] == 'B'
  }

  /** The response built from a progression: the last line announces a win
      exactly when it contains "wins the game", and the winner is then
      "Player A" if that line mentions player A and "Player B" otherwise.
      `responseId` stands for the freshly generated response UUID. */
  function Respond(responseId: string, progression: seq<string>): (r: Result<GameResponse, UseCaseError>)
    ensures r.Failure? <==> progression == []
    ensures r.Failure? ==> r.error == NoSuchElement
    ensures r.Success? ==> r.value.gameId == responseId && r.value.scoreProgression == progression
    ensures r.Success? ==> (r.value.winner.Some? <==> r.value.isFinished)
  {
    if progression == [] then Failure(NoSuchElement)
    else
      var lastScore := progression[|progression| - 1];
      var isFinished := Contains(lastScore, "wins the game");
      var winner := if isFinished then Some(if Contains(lastScore, "Player A") then "Player A" else "Player B")
                    else None;
      Success(GameResponse(responseId, progression, isFinished, winner))
  }

  /** The winner label a game state calls for: "Player A" or "Player B", or
      none while nobody has won. */
  function WinnerLabel(st: GameState): (r: Option<string>)
    ensures r.Some? <==> st.winner.Some?
    ensures r.Some? ==> r.value == "Player " + st.winner.value.Name()
  {
    match st.winner
    case None => None
    case Some(p) => Some("Player " + p.Name())
  }

  /** Reading the service's lines back recovers the game: the response fails
      only for an empty ball sequence, and otherwise carries the progression
      unchanged, the final state's finished flag and its winner. */
  lemma ResponseMatchesGame(responseId: string, gameId: string, balls: string)
    ensures var run := Play(Initial(gameId), balls);
            Respond(responseId, run.results)
            == if balls == [] then Failure(NoSuchElement)
               else Success(GameResponse(responseId, run.results, run.final.isFinished, WinnerLabel(run.final)))
  {
    var run := Play(Initial(gameId), balls);
    Progression(gameId, balls);
    var n := |run.results|;
    if n > 0 && run.final.isFinished {
      var w := run.final.winner.value;
      var last := run.results[n - 1];
      assert last == "Player " + w.Name() + " wins the game";
      WinMessageContents(w);
      if w == A {
        assert "Player " + w.Name() == "Player A";
      } else {
        assert "Player " + w.Name() == "Player B";
      }
    }
  }

  /** `execute`: plays the ball sequence and builds the response from its
      progression. */
  method Execute(ballSequence: string, gameId: string, responseId: string)
    returns (r: Result<GameResponse, UseCaseError>)
    ensures var run := Play(Initial(gameId), ballSequence);
            r == if ballSequence == [] then Failure(NoSuchElement)
                 else Success(GameResponse(responseId, run.results, run.final.isFinished, WinnerLabel(run.final)))
  {
    var results, events := PlayGame(ballSequence, gameId);
    r := Respond(responseId, results);
    ResponseMatchesGame(responseId, gameId, ballSequence);
  }

  /** A request that passes validation never hits the empty-list failure. */
  lemma ValidRequestSucceeds(responseId: string, gameId: string, balls: string)
    requires ValidBallSequence(balls)
    ensures Respond(responseId, Play(Initial(gameId), balls).results).Success?
  {
    ResponseMatchesGame(responseId, gameId, balls);
  }

  // The use case's unit tests, on the progression the service returns.

  /** A last line "Player A wins the game" gives a finished game won by "Player A". */
  lemma FinishedForA(responseId: string)
    ensures var p := ["Player A : 15 / Player B : 0", "Player A : 15 / Player B : 15",
                      "Player A : 30 / Player B : 15", "Player A : 30 / Player B : 30",
                      "Player A wins the game"];
            Respond(responseId, p) == Success(GameResponse(responseId, p, true, Some("Player A")))
  {
    var last := "Player A wins the game";
    assert OccursAt(last, "wins the game", 9);
    assert OccursAt(last, "Player A", 0);
  }

  /** A last line that is a plain score gives an unfinished game without winner. */
  lemma Unfinished(responseId: string)
    ensures var p := ["Player A : 15 / Player B : 0", "Player A : 15 / Player B : 15"];
            Respond(responseId, p) == Success(GameResponse(responseId, p, false, None))
  {
    MissingCharNotContained("Player A : 15 / Player B : 15", "wins the game", 'w');
  }

  /** A last line "Player B wins the game" gives a finished game won by "Player B". */
  lemma FinishedForB(responseId: string)
    ensures var p := ["Player A : 0 / Player B : 15", "Player A : 0 / Player B : 30",
                      "Player A : 0 / Player B : 40", "Player B wins the game"];
            Respond(responseId, p) == Success(GameResponse(responseId, p, true, Some("Player B")))
  {
    var last := "Player B wins the game";
    assert OccursAt(last, "wins the game", 9);
    MissingCharNotContained(last, "Player A", 'A');
  }
}
