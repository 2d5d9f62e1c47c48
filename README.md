# Tennis game scoring, modelled in Dafny

This project models the scoring core of a tennis-kata service. A game is
played from a string of balls. Each `'A'` is a point for player A and every
other character of the string is a point for player B (the model reads a
string as a sequence of characters; see "Left out" for characters that Java
splits in two). The service turns the balls into a
*score progression*: one output line per point. It stops at the first ball
that finds the game already won.

The model covers these parts of the core:

- **`Score`**: the pair of point counts and the tennis rules on it (labels, deuce,
  advantage, game won, winner). Module `Scores`, file `score.dfy`.
- **`GameState`**: the immutable per-game state. Its finished flag, winner and
  display line are recomputed from the score on every point. Module `GameStates`,
  file `game_state.dfy`.
- **`TennisGameService.playGame`**: the ball loop. It is an imperative `PlayGame` method,
  proved equal to the pure run `Play`. Each collaborator call (repository save,
  event publication, metrics counter) is recorded as an `Event` in a returned log.
  Module `GameService`, file `tennis_game_service.dfy`. The unit-test scenarios are
  proved in module `ServiceExamples`, file `tennis_game_service_examples.dfy`.
- **`PlayTennisGameUseCase.execute`**: reads the finished flag and the winner back
  off the last line of the progression. Module `UseCase`, file
  `play_tennis_game_use_case.dfy`.
- **`InMemoryGameRepository`**: a class holding a `map` from game id to state.
  `Save` updates it in place and the queries read it. Module `Repository`, file
  `in_memory_game_repository.dfy`.

These results connect the parts:

- **The progression.** From a new game, the service's progression has at most one
  line per ball. Every line but the last is a display line, and no display line
  ever contains "wins the game". The last line announces a win exactly when the
  game is won, and then names the winner.
- **The use case.** Reading the progression back recovers the final state's
  finished flag and winner. It fails only on an empty ball sequence, and the
  request validation rules that out.
- **Calls and storage.** A run makes one save, one point event and one
  point-count call per line. It makes one finish event, one games-played count
  and one win count only when it ends in a win. The saves leave the repository
  holding the game's final state under its id.

Two facts about the code that the model keeps:

- The loop maps `'A'` to A and every other character to B
  (`GameService.BallToPlayer`).
- `getWinner` on an unwon score throws `IllegalStateException("Game is not won
  yet")`. `Scores.Score.GetWinner` returns that as `Failure(IllegalState(...))`
  instead of having a precondition.

## Model

| member | source | states |
|---|---|---|
| Scores.Player.Name | src/main/java/com/tennis/domain/service/TennisGameService.java:54 | The enum name is "A" exactly for A and "B" exactly for B. |
| Scores.Score.GetDisplayScore | src/main/java/com/tennis/domain/model/Score.java:5-27 | "Deuce" exactly at deuce, "Advantage" exactly when that player has the advantage, "40" otherwise once both have three points, else the call for the player's points ("0", "15", "30", "40" from three up); always one of these six labels. |
| Scores.Score.AddPoint | src/main/java/com/tennis/domain/model/Score.java:29-33 | The scorer gains exactly one point and the opponent's count is unchanged. |
| Scores.Score.GetWinner | src/main/java/com/tennis/domain/model/Score.java:54-59 | Succeeds exactly when the game is won, naming a player with at least four points and a lead of two; otherwise fails with IllegalState("Game is not won yet"). |
| Scores.Score.IsDeuce | src/main/java/com/tennis/domain/model/Score.java:35-37 | Definition: both players at three or more with equal points. Stated per player by `Scores.DeuceAndAdvantageByPoints`; `Scores.WonIsNeitherDeuceNorAdvantage`, `Scores.AdvantageExclusive` and `Scores.DeuceThenAdvantage` prove its relation to the other rules. |
| Scores.Score.HasAdvantage | src/main/java/com/tennis/domain/model/Score.java:39-44 | Definition: both players at three or more and that player ahead by exactly one. Stated per player by `Scores.DeuceAndAdvantageByPoints`; `Scores.AdvantageExclusive` and `Scores.AdvantageResolves` prove what follows from it. |
| Scores.Score.IsGameWon | src/main/java/com/tennis/domain/model/Score.java:46-52 | Definition: the larger count is four or more and the counts differ by two or more. `Scores.WonByPoints` restates it for each player, and `Scores.WinningPoint`, `Scores.Score.GetWinner` and `Scores.WonIsNeitherDeuceNorAdvantage` prove what follows from it. |
| Scores.WonByPoints | src/main/java/com/tennis/domain/model/Score.java:46-52 | Won exactly when some player has four points or more and leads by two or more; stated for each player in turn, without the maximum and the absolute difference. |
| Scores.DeuceAndAdvantageByPoints | src/main/java/com/tennis/domain/model/Score.java:35-44 | For either player: deuce is a tie with both at three or more, and that player's advantage is a lead of exactly one with both at three or more. |
| Scores.DeuceExamples | src/main/java/com/tennis/domain/model/Score.java:35-37 | 3-3, 4-4 and 5-5 are deuce; 3-2, 2-3 and 4-3 are not (the unit tests' cases). |
| Scores.AdvantageExamples | src/main/java/com/tennis/domain/model/Score.java:39-44 | 4-3 and 5-4 are advantage A and not B; 3-4 and 4-5 are advantage B and not A. |
| Scores.AdvantageExclusive | src/main/java/com/tennis/domain/model/Score.java:35-44 | At most one player has the advantage, and an advantage is never deuce. |
| Scores.GameWonExamples | src/main/java/com/tennis/domain/model/Score.java:46-59 | The unit tests' won and close scores with their winners, and the error for 3-3. |
| Scores.WonIsNeitherDeuceNorAdvantage | src/main/java/com/tennis/domain/model/Score.java:35-52 | A won score is neither deuce nor an advantage for either player. |
| Scores.WinningPoint | src/main/java/com/tennis/domain/model/Score.java:46-59 | On an unwon score, a point wins the game if and only if the scorer already has three or more points and leads; the scorer is then the winner. |
| Scores.DeuceThenAdvantage | src/main/java/com/tennis/domain/model/Score.java:35-52 | From deuce, the scorer gets the advantage and the game is not won. |
| Scores.AdvantageResolves | src/main/java/com/tennis/domain/model/Score.java:35-59 | From an advantage, the leader's point wins for the leader and the other player's point gives deuce. |
| Scores.PointAfterWinCanUndoIt | src/main/java/com/tennis/domain/model/Score.java:29-52 | AddPoint does not stop at a won score: 4-2 is won and 4-3 is not, so the caller must stop. |
| Scores.FourStraightPoints | src/main/java/com/tennis/domain/model/Score.java:5-59 | A player winning the first four points is called 15, 30, 40, and then wins. |
| GameStates.GameState.AddPoint | src/main/java/com/tennis/domain/model/GameState.java:22-34 | Keeps the id and adds the point to the score; the state is finished exactly when the new score is won, and has a winner exactly when finished. |
| GameStates.AddPointConsistent | src/main/java/com/tennis/domain/model/GameState.java:22-34 | Every state a point produces is consistent: the winner is the score's GetWinner and the display line is formatted from the score. |
| GameStates.Initial | src/main/java/com/tennis/domain/model/GameState.java:11-20 | The new game: 0-0, not finished, no winner, "Player A : 0 / Player B : 0", consistent. |
| GameStates.Line | src/main/java/com/tennis/domain/model/GameState.java:49-51 | Definition: the line "Player A : <label A> / Player B : <label B>". Used by `GameStates.DisplayIsLabels` and `GameService.DisplayNeverAnnouncesWin`. |
| GameStates.FormatDisplayScore | src/main/java/com/tennis/domain/model/GameState.java:36-52 | Definition: the deuce line, then either advantage line, then the two-label line, in that order of precedence. `GameStates.DisplayIsLabels` proves every result is the two-label line, and `GameService.DisplayNeverAnnouncesWin` that none contains "wins the game". |
| GameStates.DisplayIsLabels | src/main/java/com/tennis/domain/model/GameState.java:36-52 | The fixed deuce and advantage lines agree with the per-side labels: every display line is the two labels, each in its own slot. |
| GameStates.ReplayCounts | src/main/java/com/tennis/domain/model/GameState.java:22-34 | Replaying points from a consistent state keeps the id, adds to each side exactly the points it won, and stays consistent. |
| GameStates.Reachable | src/main/java/com/tennis/domain/model/GameState.java:11-34 | Every state reachable from a new game is consistent and counts the points each player won. |
| GameStates.ReturnToDeuce | src/test/java/com/tennis/domain/model/GameStateTest.java:112-129 | A,A,A,B,B,B,A gives 4-3 with the advantage-A line; a point for B then gives 4-4, the deuce line, and the game goes on. |
| GameService.BallToPlayer | src/main/java/com/tennis/domain/service/TennisGameService.java:43 | A ball credits player A if and only if it is 'A'. |
| GameService.WinMessage | src/main/java/com/tennis/domain/service/TennisGameService.java:51 | Definition: "Player <winner> wins the game". `GameService.WinMessageContents` proves a win line announces a win and mentions "Player A" exactly when A won. |
| GameService.Entry | src/main/java/com/tennis/domain/service/TennisGameService.java:50-57 | Definition: the win message for a finished state, the display line otherwise. `GameService.PlayBall` is proved to produce it, and `GameService.Progression` what it means for the lines. |
| GameService.PointEvents | src/main/java/com/tennis/domain/service/TennisGameService.java:46-54 | Definition: the calls for one ball in source order. `GameService.PointEventsCount` counts them kind by kind, and `Repository.StoredAfterPoint` proves they store exactly that ball's state. |
| GameService.Play | src/main/java/com/tennis/domain/service/TennisGameService.java:38-60 | Definition: the run the loop performs, as a recursion on the balls. `GameService.PlayGame` is proved equal to it; `GameService.PlayStopsAtFirstWin`, `GameService.PlayEntry`, `GameService.PlayEvents`, `GameService.Progression`, `GameService.LineScores` and `GameService.PlayIsScoreRun` prove its properties. |
| GameService.StateAfterIsReplay | src/main/java/com/tennis/domain/service/TennisGameService.java:43-44 | The state after n balls is the replay of the points those balls credit. |
| GameService.PlayBall | src/main/java/com/tennis/domain/service/TennisGameService.java:43-57 | One loop pass makes the point and its state, the calls in source order (save, publish point, count point, then the three finishing calls on a win) and the line (the win message or the display line). |
| GameService.PlayGame | src/main/java/com/tennis/domain/service/TennisGameService.java:30-64 | The loop's progression and call log are exactly those of the run `Play` from the new game; the lemmas of this module then hold of them. |
| GameService.PlayStopsAtFirstWin | src/main/java/com/tennis/domain/service/TennisGameService.java:38-44 | A run plays one ball per line, never more lines than balls, and ends in the state after that many balls; balls remain only when that state is won. |
| GameService.PlayEntry | src/main/java/com/tennis/domain/service/TennisGameService.java:38-57 | Line k is the output of the state after k+1 balls, and the state after k balls was not finished. |
| GameService.PointEventsCount | src/main/java/com/tennis/domain/service/TennisGameService.java:46-54 | One ball makes each per-point call once, and each finishing call once exactly when it finished the game. |
| GameService.PlayCount | src/main/java/com/tennis/domain/service/TennisGameService.java:46-54 | A run makes the per-point calls once per line. It makes the finishing calls once if it ended in a win and zero times otherwise. |
| GameService.PlayWinsNamed | src/main/java/com/tennis/domain/service/TennisGameService.java:54 | Every win count names the final winner. |
| GameService.PlayEvents | src/main/java/com/tennis/domain/service/TennisGameService.java:46-54 | All six call counts of a run, and the name every win count carries. |
| GameService.DisplayNeverAnnouncesWin | src/main/java/com/tennis/domain/model/GameState.java:36-52 | No display line contains "wins the game". |
| GameService.WinMessageContents | src/main/java/com/tennis/domain/service/TennisGameService.java:51 | A win line contains "wins the game", and contains "Player A" if and only if A won. |
| GameService.Progression | src/main/java/com/tennis/domain/service/TennisGameService.java:30-60 | From a new game: at most one line per ball, and one per ball unless the game was won. Any ball yields a line. Every line before the last is an unfinished state's display line with no win text. The last line announces a win if and only if the game is won, and then names GetWinner. |
| GameService.LineScores | src/main/java/com/tennis/domain/service/TennisGameService.java:38-57 | Each line comes from the state after its ball, whose score counts for each player the balls credited to them so far; the final score counts the balls played. |
| GameService.PlayIsScoreRun | src/main/java/com/tennis/domain/service/TennisGameService.java:38-57 | From a consistent state, the progression equals the one computed on scores alone. |
| ServiceExamples.SimpleGame | src/test/java/com/tennis/domain/service/TennisGameServiceTest.java:43-65 | "AAAA" gives 15-0, 30-0, 40-0 and A's win, with four saves, point events and counts, one finish event, one games-played count, and one win count for "A". |
| ServiceExamples.KataGame | src/test/java/com/tennis/domain/service/TennisGameServiceTest.java:67-83 | "ABABAA" gives the six lines of the kata, ending with A's win. |
| ServiceExamples.DeuceRun | src/test/java/com/tennis/domain/service/TennisGameServiceTest.java:85-100 | "ABABAB" gives six lines ending at the deuce line. |
| ServiceExamples.DeuceGame | src/test/java/com/tennis/domain/service/TennisGameServiceTest.java:85-100 | "ABABAB" leaves the game unfinished: no finish event and no games-played count. |
| ServiceExamples.AdvantageGame | src/test/java/com/tennis/domain/service/TennisGameServiceTest.java:102-113 | "ABABABA" gives seven lines ending at the advantage-A line. |
| ServiceExamples.StopsWhenFinished | src/test/java/com/tennis/domain/service/TennisGameServiceTest.java:115-126 | "AAAAAA" gives the same four lines as "AAAA": the balls after the win are ignored. |
| UseCase.Respond | src/main/java/com/tennis/application/usecase/PlayTennisGameUseCase.java:23-36 | Fails with NoSuchElement exactly on an empty progression. Otherwise it keeps the response id and the progression, and has a winner exactly when finished. |
| UseCase.WinnerLabel | src/main/java/com/tennis/application/usecase/PlayTennisGameUseCase.java:25-29 | The label "Player A" or "Player B" of the state's winner, present exactly when there is a winner. |
| UseCase.ResponseMatchesGame | src/main/java/com/tennis/application/usecase/PlayTennisGameUseCase.java:20-37 | Reading the lines back recovers the game: it fails only on an empty ball sequence, and otherwise gives the progression, the final finished flag and the final winner's label. |
| UseCase.Execute | src/main/java/com/tennis/application/usecase/PlayTennisGameUseCase.java:20-37 | The response is the failure for an empty ball sequence, and otherwise the game's progression, finished flag and winner label. |
| UseCase.ValidRequestSucceeds | src/main/java/com/tennis/application/dto/GameRequest.java:14-15 | A ball sequence passing the request validation never reaches the empty-list failure. |
| UseCase.FinishedForA | src/test/java/com/tennis/application/usecase/PlayTennisGameUseCaseTest.java:31-55 | A progression ending "Player A wins the game" is finished and won by "Player A". |
| UseCase.Unfinished | src/test/java/com/tennis/application/usecase/PlayTennisGameUseCaseTest.java:57-76 | A progression ending in a score line is unfinished and has no winner. |
| UseCase.FinishedForB | src/test/java/com/tennis/application/usecase/PlayTennisGameUseCaseTest.java:78-97 | A progression ending "Player B wins the game" is finished and won by "Player B". |
| Repository.WinnerName | src/main/java/com/tennis/infrastructure/adapter/InMemoryGameRepository.java:60 | A state's winner name is present exactly when it has a winner, and is "A" or "B" exactly for that winner. |
| Repository.InMemoryGameRepository.constructor | src/main/java/com/tennis/infrastructure/adapter/InMemoryGameRepository.java:15 | A new repository is empty and valid. |
| Repository.InMemoryGameRepository.Save | src/main/java/com/tennis/infrastructure/adapter/InMemoryGameRepository.java:17-20 | Stores the state under its id, replacing any earlier state. That id then finds it and every other id finds what it found before. The total count grows by one exactly for a new id. Every state stays keyed by its own id. |
| Repository.InMemoryGameRepository.FindById | src/main/java/com/tennis/infrastructure/adapter/InMemoryGameRepository.java:22-25 | Finds a state exactly for a stored id, and then the stored one. |
| Repository.InMemoryGameRepository.FindAll | src/main/java/com/tennis/infrastructure/adapter/InMemoryGameRepository.java:27-30 | Holds every stored state and nothing else. |
| Repository.InMemoryGameRepository.FindFinishedGames | src/main/java/com/tennis/infrastructure/adapter/InMemoryGameRepository.java:32-37 | Holds exactly the stored states that are finished. |
| Repository.InMemoryGameRepository.CountFinishedGames | src/main/java/com/tennis/infrastructure/adapter/InMemoryGameRepository.java:47-54 | The distinct ids of finished games, never more than the total count. |
| Repository.InMemoryGameRepository.GamesWonBy | src/main/java/com/tennis/infrastructure/adapter/InMemoryGameRepository.java:58-60 | Exactly the finished stored games whose winner's name is the one asked for: a game is in the set if and only if it is finished and its winner has that name. |
| Repository.InMemoryGameRepository.CountGamesByWinner | src/main/java/com/tennis/infrastructure/adapter/InMemoryGameRepository.java:56-64 | The distinct ids of games won by that name, never more than the finished count. |
| Repository.IdsOfDistinct | src/main/java/com/tennis/infrastructure/adapter/InMemoryGameRepository.java:39-45 | States with pairwise distinct ids have as many distinct ids as states. |
| Repository.IdsMonotone | src/main/java/com/tennis/infrastructure/adapter/InMemoryGameRepository.java:47-64 | A filtered subset of states has no more distinct ids than the whole. |
| Repository.StoredIdsDistinct | src/main/java/com/tennis/infrastructure/adapter/InMemoryGameRepository.java:17-20 | Because save keys every state by its id, no two stored states share an id, and the ids are the map's keys. |
| Repository.CountTotalIsSize | src/main/java/com/tennis/infrastructure/adapter/InMemoryGameRepository.java:39-45 | The distinct-id total is the number of stored entries, and so is the number of states findAll returns. |
| Repository.OnlyPlayersWin | src/main/java/com/tennis/infrastructure/adapter/InMemoryGameRepository.java:56-64 | A name other than "A" or "B" has won no game. |
| Repository.WinnerCountsSplit | src/main/java/com/tennis/infrastructure/adapter/InMemoryGameRepository.java:47-64 | With consistent stored states, A's and B's win counts add up to the finished count. |
| Repository.StoredAfterAppend | src/main/java/com/tennis/infrastructure/adapter/InMemoryGameRepository.java:17-20 | Applying two call logs one after the other is applying their concatenation. |
| Repository.StoredAfterPoint | src/main/java/com/tennis/domain/service/TennisGameService.java:46-54 | The calls for one ball store exactly that ball's state under its id. |
| Repository.ServiceStoresFinalState | src/main/java/com/tennis/domain/service/TennisGameService.java:38-58 | After a run's saves, the repository holds the run's final state under the game id, and every other entry is unchanged; a run of no ball stores nothing. |

## Left out

- The processing timer (`startGameProcessingTimer` / `recordGameProcessingTime`) reads a clock and has no effect on the results, so it is not modelled.
- The counters and the event publisher are modelled only as the calls they receive, recorded in the `Event` log. Micrometer, the Avro conversion and the Kafka transport are not part of this model.
- Logging is not modelled.
- The game id and the response id are each a random UUID in the source. Here they are parameters (`gameId`, `responseId`), since randomness is outside the model.
- The controllers, the JSON mapping of `GameResponse`, the messaging adapters and the Spring wiring are outside the scoring core and not modelled.
- The `GameRepository` and publisher ports are not modelled as interfaces. The service's calls on them are the events, and the in-memory adapter is the class `Repository.InMemoryGameRepository`; `Repository.StoredAfter` links the two.
- `ConcurrentHashMap` thread safety and concurrent saves are not modelled; the repository is used sequentially.
- Java's `int` and `long` arithmetic is modelled as unbounded `nat`. A point count never exceeds the length of the ball string, and a Java string is shorter than 2^31 characters, so no count overflows.
- The request validation (`@NotBlank`, `^[AB]+$`) runs before `execute` in the source. It is the predicate `UseCase.ValidBallSequence` and the lemma `UseCase.ValidRequestSucceeds`, not a precondition of `Execute`.
- GameService.PlayGame: reads the ball string as a sequence of Unicode characters, while Java's `toCharArray()` yields UTF-16 code units, so a character outside the Basic Multilingual Plane (U+1F600, say) is one point for B here and two in Java. Through `execute` this never happens, because the request validation `^[AB]+$` (GameRequest.java:15) admits only 'A' and 'B'.
- `GameService.WinnerText`: Java's "%s" of a null winner would print "null". The model keeps that case, but the service never reaches it because a finished state always has a winner.
- `Player.java` is not part of this model; the two-constant enum and its `name()` are `Scores.Player` and `Scores.Player.Name`.
- Repository.InMemoryGameRepository.FindAll: returns a set rather than Java's list, so the list's order (the map's unspecified iteration order) is not modelled.
- Repository.InMemoryGameRepository.FindFinishedGames: returns a set rather than Java's list, so the order is not modelled.
- Repository.InMemoryGameRepository.CountTotalGames: carries no contract of its own; its meaning is stated by `Repository.CountTotalIsSize` and by the ensures of `Save`.
